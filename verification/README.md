# Data source harness: a verified model

A Dafny model of the parts of the data source harness where being wrong is expensive: the write-ahead
action journal and its crash recovery, the saga over the action gateway, the idempotent mutation
sources, the bitemporal identity graph, semantic routing, pack generation, cross-source coverage,
query bounds, cursor paging and event replay, and signed packages. `dafny verify dfyconfig.toml`
checks all of it.

How it is laid out:

- **Journal and recovery.** `Journal` is the SQLite journal as a class over a record table and a chained event
  log; `JournalIntegrity` says what its operations keep and `JournalTable` what its check makes of the table.
  `RecoveryMachine` is one process over the journal and its sources as a state machine: any number of execute
  and reconcile calls interleaved at every await, cancellation, lost replies, requests that reach a source
  after their caller is gone, and process death at every point. `RecoverySafety` holds the joint invariant,
  `RecoveryTheorems` the results and `RecoveryWitnesses` concrete runs. `DurablePlays` says what one call of
  the durable gateway does, `DurableRuns` that this is a run of the machine, `DurableOutcomes` when it raises,
  returns and dispatches, `DurableReports` what its receipts say, and `DurableGateway` is the class that does
  it.
- **Gateway and saga.** `ActionGateway.dfy` (module `Gateway`) is the plain gateway as a class over its
  connectors and audit ledger, `GatewayGuards` and `ApprovalGuards` what gets past its tests and those of the
  durable one, `GatewayReports` what its previews and receipts say. `Saga` is the coordinator with its two
  loops; `SagaTheorems`, `SagaWrites`, `SagaCompensates`, `SagaEscapes` and `SagaShape` say what a saga does
  to its sources, when it ends compensated, when it raises and what its outcome says. `LabSource` and
  `PostgresSource` are the two mutation sources.
- **Knowledge.** `IdentityClusters`, `AssertionGraph`, `AssertionActivity`, `AssertionHistories` and
  `SemanticMemory`; `Governance`, `Freshness`, `Routing` (which mapping wins a concept), `SourceRouter` (the
  decision as a function), `SemanticRouter` (the loops that compute it), `RouteFreshness` and `RouteReports`
  (what it says of times and concepts).
- **Data paths.** `PackDatasets`, `PackFactory` and `PackDraws`; `Coverage` and `Coordination`;
  `QueryPlanning` and `BatchGateway`; `Paging` and `EventReplay`; `Packaging` and `PackageContents`;
  `ApprovalAuthority`.
- `Wrappers`, `Ordering`, `Scalars`, `Numerals`, `HashChain`, `AuditLedger`, `Actions` and `Models` are shared.

Digests, HMACs and JSON encodings are constructors on values, hence injective; times are integers;
confidences are reals. The class methods that change state are proved against functions of the old state
(`PrepareNext`, `MutateNext`, `ExecuteNext`, `RunNext`, `DecisionOf`, ...), and the results are lemmas about
those functions and the runs they make up.

## What the code does that its documentation does not say

- Under interleaved calls EXECUTED and FAILED are not final. A reconcile or a reply that comes back
  unresolved after another call has settled the record overwrites it with RECONCILIATION_REQUIRED
  (`TerminalLeftExactly` is the exact condition, `ExecutedCanBeUnsettled` a run). With one call at a time
  both states are absorbing. No effect is repeated either way.
- `verify()` turns false with the first FAILED record, because a failed record keeps its receipt, and with
  two keys that share an action id, because prepared events are looked up by action id alone (`VerifyInRuns`;
  `AppliedAndFailed` and `SharedActionId` are runs).
- The lab source compares the string it stored with the value it was sent, so a mutation whose `newValue` is
  not a string is applied and then reported as not meeting its postconditions: the record is FAILED while the
  source holds the key (`AppliedAndFailed` is a run, `SettledAsHeld` the exact condition). In a saga a step or a
  compensation like that fails and leaves its write behind (`SagaLeavesItsWrites`).
- A saga compensates only for the failures it lists. A step whose source is not registered raises past it: the steps
  before stay applied, none is compensated and there is no outcome (`SagaRaisesExactly`; `HalfDone` is such a saga).
- `begin` accepts an EXECUTED record and `execute` ignores what it returns; at most one dispatch therefore
  rests on there being no await between `prepare` and `begin`, which the machine's steps reflect.
- The graph's contradiction check is made for the time of the call. The graph is consistent at a time exactly when
  every assertion active then would pass the check made for then (`ConsistencyIsExact`); an assertion that lies
  ahead of its time may pass it now and fail it when its time comes (`AheadOfTimeContradicts`), and while none does
  every assertion passes for good (`PassedForGood`). `append` reads the clock many times, so what it accepts is
  bounded by what was acceptable when it began and what is when it ends.
- The router calls a concept ambiguous when its best mapping does not beat the second by more than the margin,
  which is when no mapping beats all its rivals by more than the margin; two close mappings further down do not
  make it ambiguous.
- A saga restores a value exactly when the compensation of the first step on that source writes back what that
  step expected; what later compensations write does not matter.
- `propose` in the semantic memory takes a candidate in any status, and one handed in as approved is promoted
  without a review here. A human stands behind a promotion exactly if its candidate was handed in as proposed or
  under a human's name (part of `Valid`); `ApprovedByAnAgent` is the other case.
- A negative cursor makes the in-process appointment connector cut pages from the end first and then, if the first
  start that is not negative lies inside the list, go on from there (`PagesFromBelow`).
- The planner accepts empty asset ids and a purpose of white space, for which building the query request then
  raises.
- Two distinct events with one sequence number break resumption: the later is skipped after a checkpoint taken
  between them. A subscription without a checkpoint starts after sequence 0, so it misses an event with sequence 0
  or less (`NothingMissed`; `ZeroIsNeverAnnounced` is the case).
- `verify()` notices whatever is cut from or changed in the log, as long as the table is as it was, but not an event
  chained to its end without a row being written (`AcceptedExactlyIfGrown`, `AppendedGoesUnnoticed`). Nor does it notice
  a row that is put back to an earlier event of its action, short of EXECUTED, or whose times, attempts or source version
  are changed (`RewrittenRowExactly` is the exact condition, `RolledBackUnnoticed` the case).
- The archive ends an entry's name at its first NUL, so a package with a path that holds one is built and then refused.

## Model

| member | source | states |
|---|---|---|
| RecoveryTheorems.AtMostOnceDispatch | src/data_source_harness/durability.py:463-543 | In every run of one process, with calls interleaved at every await, cancellation, lost replies and crashes anywhere, no (source, idempotency key) is handed to a connector twice, and every dispatched action has a record with one attempt that has left PREPARED |
| RecoveryTheorems.OnlyPreparedIsDispatched | src/data_source_harness/durability.py:463-510 | A step dispatches only an authorized call whose key was unknown or PREPARED, and its record is EXECUTING afterwards |
| RecoveryTheorems.RecordsOnlyAdvance | src/data_source_harness/durability.py:211-326 | A record keeps its binding for ever; it leaves PREPARED only for EXECUTING, settles only as its own call ended, and never returns to PREPARED |
| RecoveryTheorems.JournalMatchesSource | src/data_source_harness/durability.py:463-605 | In every run, interleaved or not: a key not on record or PREPARED is not held by the source; EXECUTED means held for this action, which carries a string; a FAILED record's key is held only if the value is not a string; a held key of an action that carries a string is uncertain or EXECUTED |
| RecoveryTheorems.SettledAsHeld | src/data_source_harness/durability.py:463-605 | In every run a settled record is EXECUTED if and only if the source holds its key and the action carries a string; otherwise it is FAILED |
| RecoveryWitnesses.AppliedAndFailed | src/data_source_harness/durability.py:511-543 | A concrete run that records a number as FAILED although the source applied it; verify() refuses the journal with all action ids distinct |
| RecoveryTheorems.TerminalLeftExactly | src/data_source_harness/durability.py:281-326 | EXECUTED and FAILED are left exactly when a call that was past its own state check comes back unresolved, and then for RECONCILIATION_REQUIRED |
| RecoveryWitnesses.ExecutedCanBeUnsettled | src/data_source_harness/durability.py:545-605 | A concrete run in which a late reconcile overwrites an EXECUTED record although the source holds the key |
| RecoveryTheorems.SequentialTerminalIsAbsorbing | src/data_source_harness/durability.py:281-326 | With calls handled one at a time, an EXECUTED or FAILED record never changes again |
| RecoveryTheorems.ReconcileCompletesExactly | src/data_source_harness/durability.py:545-605 | Reconciling an uncertain record makes it EXECUTED exactly when the source holds the key and was given a string, RECONCILIATION_REQUIRED otherwise, and leaves every source as it was |
| RecoveryWitnesses.LateArrival | src/data_source_harness/durability.py:511-605 | A concrete run: the process dies with a request on its way, a reconcile finds nothing and leaves RECONCILIATION_REQUIRED, the request reaches its source, and the next reconcile records EXECUTED |
| RecoveryTheorems.VerifyInRuns | src/data_source_harness/durability.py:348-403 | On every journal a run reaches, verify() is true if and only if no record is FAILED and no action id is used under two keys |
| RecoveryWitnesses.SharedActionId | src/data_source_harness/durability.py:373-403 | A concrete run with one action id under two keys; verify() refuses the journal with nothing failed |
| RecoveryTheorems.TableIsProjection | src/data_source_harness/durability.py:128-326 | In any run, replaying the event log rebuilds the record table, receipts aside and attempts included, if and only if action ids are distinct |
| RecoveryTheorems.RunLogIsProtected | src/data_source_harness/durability.py:348-403 | Whatever is done to the log of a run while its table is left alone, verify() accepts it only if the run's log is still its beginning |
| RecoverySafety.StepInv | src/data_source_harness/durability.py:463-605 | Each of the fourteen kinds of step keeps the joint invariant of journal, sources, calls in flight and requests adrift |
| DurableGateway.DurableActionGateway.Execute | src/data_source_harness/durability.py:463-543 | The durable execute leaves exactly the gateway state, journal, history and outcome of ExecutePlay, with death possible at every await and on both sides of prepare, begin and delivery, and hands its action over exactly when HandsOver says; DurableGuarded, ExecuteIsExact and DurableReports.ExecuteTells say what that comes to |
| DurableGateway.DurableActionGateway.Reconcile | src/data_source_harness/durability.py:545-605 | The durable reconcile leaves exactly the gateway state, journal, history and outcome of ReconcilePlay and hands nothing over |
| DurableRuns.ExecuteIsARun | src/data_source_harness/durability.py:463-543 | What execute does to journal and sources, wherever it dies, is what the machine does in the steps it records, and it dispatches one action or none |
| DurableRuns.ReconcileIsARun | src/data_source_harness/durability.py:545-605 | What reconcile does to journal and sources, wherever it dies, is what the machine does in the steps it records, without a dispatch |
| DurableOutcomes.ExecuteIsExact | src/data_source_harness/durability.py:463-543 | Each error, a return and the hand-over of the action happen in exactly the cases named: how preview, approval, policy, the key's record, the registry and the source's reply stand |
| DurableOutcomes.ReconcileIsExact | src/data_source_harness/durability.py:545-605 | Each refusal and a return happen in exactly the cases named; an answered open record becomes EXECUTED with the returned receipt if the source proves it, RECONCILIATION_REQUIRED otherwise; no source is touched |
| ApprovalGuards.DurableGuarded | src/data_source_harness/durability.py:463-472 | The durable execute raises PreviewMismatch exactly if the preview is refused, of another action or policy, or run out, and else ApprovalRequired exactly if the action asks for a human and no verifier is there, no approval was passed, or the verifier did not say yes to that approval, action, identity, time of the call and no compensation; journal, audit and sources are then as before, and nothing is handed over otherwise than with that yes |
| DurableReports.ExecuteTells | src/data_source_harness/durability.py:497-543 | Under a key new to its source, the receipt returned or raised names the action, the decision, the time of the call and the version the source is now at, and points to an audit entry made of the answer |
| DurableReports.ReconcileTells | src/data_source_harness/durability.py:545-605 | A receipt reconcile makes has the start on record, the version the source recorded, the recovered id and the decision of this call, and points to its audit entry; without a receipt nothing is audited beyond the authorization |
| DurableOutcomes.OnlyPreparedIsSent | src/data_source_harness/durability.py:463-510 | In a run, an action whose write-ahead says send has no record or a PREPARED one, so an EXECUTED record without receipt never comes up |
| DurableGateway.EveryGatewayIsARun | src/data_source_harness/durability.py:439-605 | Any object in a valid state, whatever calls and deaths led there, has dispatched no key twice, holds no PREPARED key in its sources, and satisfies the verify() characterisation |
| Journal.SQLiteActionJournal.AppendEvent | src/data_source_harness/durability.py:128-162 | Appends one event linked to the digest of the one before; the table is untouched |
| Journal.SQLiteActionJournal.Prepare | src/data_source_harness/durability.py:164-209 | Inserts a PREPARED row and its event for a new key, returns the row of the same action, refuses another action under the key |
| Journal.SQLiteActionJournal.Begin | src/data_source_harness/durability.py:211-251 | Moves PREPARED to EXECUTING with one more attempt; returns an EXECUTED row unchanged; refuses an unknown, other or uncertain record |
| Journal.SQLiteActionJournal.Finish | src/data_source_harness/durability.py:281-326 | Rewrites the row to the ending's state and receipt and logs it; refuses only a record that is unbound |
| Journal.SQLiteActionJournal.Pending | src/data_source_harness/durability.py:336-346 | Returns exactly the uncertain records in order of source and key |
| Journal.SQLiteActionJournal.Verify | src/data_source_harness/durability.py:348-403 | The chain loop, the indexing loop and the row loop together decide whether the journal is accepted, which TableAcceptedExactly and AcceptedExactlyIfGrown spell out for the table and the log |
| JournalIntegrity.PrepareKeepsLedger | src/data_source_harness/durability.py:164-209 | prepare keeps the chain intact and every row and event matched |
| JournalIntegrity.BeginKeepsLedger | src/data_source_harness/durability.py:211-251 | begin keeps the chain intact and every row and event matched |
| JournalIntegrity.FinishKeepsLedger | src/data_source_harness/durability.py:281-326 | settling a bound record with a receipt for its action keeps the chain intact and every row and event matched |
| JournalIntegrity.VerifyAcceptsExactly | src/data_source_harness/durability.py:348-403 | A journal in its invariant is accepted if and only if nothing failed and action ids are distinct |
| JournalIntegrity.AcceptedExactlyIfGrown | src/data_source_harness/durability.py:348-403 | Under the table of an accepted journal verify() accepts exactly the logs that begin with its log, are chained intact and bind no recorded action anew |
| JournalIntegrity.AppendedGoesUnnoticed | src/data_source_harness/durability.py:348-403 | An event chained to the end of an accepted log without a row being written is accepted, unless it is a prepared event |
| JournalTable.TableAcceptedExactly | src/data_source_harness/durability.py:373-403 | Over an intact log verify() accepts exactly the tables in which every row has the digest and state of an event of its action, the source, key, action digest and decision that its action's last prepared event names, and a receipt exactly if it says EXECUTED, with the row's own action id, digest and key |
| JournalTable.RewrittenRowExactly | src/data_source_harness/durability.py:373-403 | Rewriting a row of an accepted journal under its action id goes unnoticed exactly if the four bound fields are kept, the row stands at some event of its action and it has a receipt of its own exactly if it says EXECUTED |
| JournalTable.ForeignReceiptNoticed | src/data_source_harness/durability.py:389-400 | A receipt put in place of a row's own is accepted exactly on an EXECUTED row and if its action id, digest and key are the row's |
| JournalTable.RolledBackUnnoticed | src/data_source_harness/durability.py:373-403 | A row put back to an earlier event of its action, short of EXECUTED, is accepted, with any times, attempts and source version |
| JournalTable.SettledAcceptedExactly | src/data_source_harness/durability.py:281-326 | Settling a begun record of an accepted journal as a success keeps it accepted if and only if the receipt carries the record's action id, digest and key |
| JournalTable.EndingIsRecorded | src/data_source_harness/durability.py:281-326 | Row and event of an ending agree in state, time and digest; a settled one carries the receipt and its version, an unresolved one no receipt, no version and the reason |
| JournalIntegrity.RebuiltRowIsLastEvent | src/data_source_harness/durability.py:128-162 | The replayed row of an action carries the digest, state and time of the action's last event |
| HashChain.HeadBindsHistory | src/data_source_harness/durability.py:348-371 | Two valid logs that end in the same digest are equal entry by entry |
| HashChain.DigestsDistinct | src/data_source_harness/durability.py:128-162 | No two positions of a valid log carry the same digest |
| HashChain.TamperingIsVisible | src/data_source_harness/actions.py:361-375 | Any edit of a valid log that keeps its last digest is rejected |
| AuditLedger.ActionAuditLedger.Append | src/data_source_harness/actions.py:327-355 | The ledger gains one entry, chained, and keeps the rest |
| AuditLedger.ActionAuditLedger.Verify | src/data_source_harness/actions.py:361-375 | The loop returns true exactly for a valid chain |
| LabSource.LabMutationConnector.Mutate | reference_labs/phase4_support.py:40-73 | State and reply are those of the mutation function: replay, another action's key, failed precondition, malformed request, write |
| LabSource.LabMutationConnector.Reconcile | reference_labs/phase4_support.py:75-88 | Reports what the idempotency table holds for this action, changing nothing |
| LabSource.SourceConserves | reference_labs/phase4_support.py:40-73 | Under any requests, version growth, mutation count growth and the number of new keys are equal, and no recorded key is lost or rewritten |
| LabSource.RecordedKeyIsInert | reference_labs/phase4_support.py:40-73 | A key recorded once never changes the source again, whoever sends it and whenever |
| LabSource.RecordedKeyAnswers | reference_labs/phase4_support.py:40-52 | Under a key on record its own action is answered as before, marked as already applied, and any other is refused |
| Numerals.IntReads | reference_labs/phase4_support.py:54-55 | The expected version of a precondition is read from any numeral with white space around it and a sign before it |
| Numerals.FlagsAndNull | reference_labs/phase4_support.py:54-56 | A flag is read as 1 or 0 and written as True or False; null is no number and written as None |
| Numerals.MagnitudeExactly | reference_labs/phase4_support.py:54-55 | A text without sign and white space is read as a number exactly if it consists of digits and single underscores between two of them, and as the number its digits make up |
| Numerals.IntWritten | reference_labs/phase4_support.py:50-70 | A version is written as its plain digits, without leading zeros, with a minus sign exactly if it is negative |
| Gateway.ActionGateway.Preview | src/data_source_harness/actions.py:461-494 | State and preview are those of the preview function: the refusal of an unknown source and of one without idempotency keys, the authorization emitted and the preview audited; PreviewSays spells the preview out |
| Gateway.ActionGateway.Execute | src/data_source_harness/actions.py:496-596 | State and result are those of the execute function: every refusal, the replay of a known key, the dispatch, the receipt of success or failure; ExecuteGuarded, ExecuteSucceedsExactly and ExecuteTells spell them out |
| Gateway.ActionGateway.Conclude | src/data_source_harness/actions.py:538-596 | Turns a source's reply into the receipt, records the key only on success, raises on failure |
| Gateway.ActionGateway.Compensate | src/data_source_harness/actions.py:598-641 | Runs the compensation as an action of its own under the derived key and marks the receipt as compensating the original; CompensateGuarded and CompensateSucceedsExactly say when |
| GatewayGuards.ExecuteGuarded | src/data_source_harness/actions.py:496-506 | execute raises PreviewMismatch exactly if the preview does not allow this action under this policy at this time, and else ApprovalRequired exactly if the action asks for a human and no verifier said yes to the approval passed, for this action, identity, time and no compensation; sources, keys and audit are then as before |
| GatewayGuards.PreviewBindsItsAction | src/data_source_harness/actions.py:678-691 | A preview the gateway made is accepted exactly for the very action it was made of, under the same policy, if it was allowed and before it runs out |
| GatewayGuards.ExecutedWasVouched | src/data_source_harness/actions.py:693-715 | Whenever an action that asks for a human succeeds, changes a source or binds a key, a verifier said yes to the approval passed at the time of the call |
| GatewayGuards.CompensateGuarded | src/data_source_harness/actions.py:598-616 | compensate refuses a receipt that is not a successful one of this action, and then, for an action that asks for a human, an approval that no verifier accepts for compensation, with sources and keys as before; it asks for no other approval |
| ApprovalGuards.IssuedPassesExactly | src/data_source_harness/actions.py:240-307 | An issued approval gets an action that asks for a human past the test of either gateway, and its compensation past that of the plain one, if and only if requester, action, policy and time are the approved ones and compensation was allowed where it is asked for |
| ApprovalGuards.AlteredNeverPasses | src/data_source_harness/actions.py:266-307 | An approval that carries an issued signature and was altered in any field gets nothing written, compensated or handed over by either gateway |
| GatewayReports.PreviewSays | src/data_source_harness/actions.py:461-494 | A preview says what was decided and by which decision, when and for how long, of which action, whether a human will be asked, what is touched and which preconditions are checked; the ledger has an entry with the decision |
| GatewayReports.ExecuteTells | src/data_source_harness/actions.py:525-596 | Under a new key, the receipt returned or raised names the action, the decision, the start and the version the source is now at, or "unknown" exactly if the source could not read the request, and points to an audit entry that says the same; a success is bound to its key |
| GatewayReports.ReplayTells | src/data_source_harness/actions.py:509-524 | A replay touches no source and returns the receipt bound to the key, dated now, with an audit entry that names it |
| GatewayReports.CompensateTells | src/data_source_harness/actions.py:628-641 | A compensation's receipt names the receipt it takes back, and its audit entry, under the original action, the receipt of the compensation |
| GatewayReports.ExecuteAudits | src/data_source_harness/actions.py:717-749 | With working telemetry execute audits exactly once if it was answered or replayed and not at all if it refused; where every emit fails, each adds one entry |
| ApprovalAuthority.HmacApprovalAuthority.IssuedVerifiesExactly | src/data_source_harness/actions.py:240-307 | An issued approval verifies if and only if requester, action, policy and time are the approved ones, and compensation was allowed where it is asked for |
| ApprovalAuthority.HmacApprovalAuthority.AcceptedWasIssued | src/data_source_harness/actions.py:266-307 | An accepted approval carrying an issued signature equals the issued approval in every field, its id included |
| ApprovalAuthority.HmacApprovalAuthority.IssuedUnderNonce | src/data_source_harness/actions.py:240-264 | An approval is issued under any nonce but the empty one, and nothing of it is new but its id |
| ApprovalAuthority.OthersRefuse | src/data_source_harness/actions.py:266-307 | An approval issued by one authority never verifies at another of the same secret with another issuer or audience |
| ApprovalAuthority.SplitsAtLast | src/data_source_harness/actions.py:278-281 | The nonce and signature are read back from the id even when the nonce contains colons |
| Saga.ActionSagaCoordinator.Run | src/data_source_harness/actions.py:764-807 | The loop with its reverse compensation loop computes the saga function of the gateway's state, which SagaCompensatesExactly, SagaLeavesItsWrites and SagaOutcomeShape spell out |
| Saga.ActionSagaCoordinator.CompensateAll | src/data_source_harness/actions.py:779-800 | The inner loop compensates from the last completed step until one compensation fails; UnwindExactly says when none does |
| SagaTheorems.SagaRestoresSources | src/data_source_harness/actions.py:764-807 | With distinct new keys and string values, a compensated saga advances each source two versions per completed step, and restores its value if and only if the compensation of the first step on that source writes back what the step expected; a failed saga leaves it untouched |
| SagaTheorems.CompensatedSagaLeavesNoTrace | src/data_source_harness/actions.py:764-807 | If every compensation writes back its step's expected value, a compensated saga restores every value at its old version plus two per step |
| SagaWrites.SagaLeavesItsWrites | src/data_source_harness/actions.py:764-807 | However a saga ends, each source holds, in order, the writes of its completed steps and of the compensations made, one version each and the last one's value, and the keys on record grow by exactly theirs; a step or compensation that failed is among them if and only if its key is on record afterwards, which takes a value that is not a string; if run() raises, at a step whose source is not registered, they are the writes of all steps before it |
| SagaEscapes.SagaRaisesExactly | src/data_source_harness/actions.py:752-807 | run() raises if and only if some step's source is not registered and the steps before the first such step make up a saga that completes; it leaves the state of that saga, with nothing compensated |
| SagaEscapes.HalfDone | src/data_source_harness/actions.py:752-807 | A concrete saga of two steps whose second names an unregistered source: run() raises and the first, which has a compensation, stays applied |
| SagaWrites.FailedCompensationLeavesSuffix | src/data_source_harness/actions.py:779-800 | With string values a saga whose compensation failed leaves every source with exactly the last m of its n completed steps undone |
| SagaWrites.RefusedMutation | reference_labs/phase4_support.py:40-73 | A mutation that is refused or fails leaves the source as it was, unless its preconditions hold and its value is not a string: then it is applied under its key |
| SagaWrites.CompensationSlips | reference_labs/phase4_support.py:40-73 | A request whose preconditions hold and whose value is not a string is applied and reported as not meeting its postconditions |
| SagaTheorems.ExecuteEffect | src/data_source_harness/actions.py:496-596 | A successful execution under a new key applies exactly its request to exactly its source; a failed one of a string value applies nothing |
| SagaShape.SagaOutcomeShape | src/data_source_harness/actions.py:764-807 | Receipts are those of the completed prefix, compensation i undoes step n-1-i, and the outcome's state says exactly how far compensation got |
| SagaCompensates.CompensateSucceedsExactly | src/data_source_harness/actions.py:598-641 | compensate succeeds if and only if the receipt is a successful one of this action, a human approval is vouched for where one is needed, the reversing action is allowed at both stages before its preview runs out, and the source is at the version and value that the compensation's own preconditions name and is given a string; the source then holds that string, one version on |
| SagaCompensates.UnwindExactly | src/data_source_harness/actions.py:779-800 | Where compensations may be made, all completed steps are undone if and only if each compensation expects, by its own preconditions, the version and value at which the compensations after it leave its source |
| SagaCompensates.SagaCompensatesExactly | src/data_source_harness/actions.py:764-807 | With distinct new keys and string values, a saga that is stopped by a controlled failure ends compensated if and only if some step was completed and each completed step's compensation expects the version and value its step left, counting the later steps on the source and their compensations |
| SagaCompensates.UndoneSaga | reference_labs/white_goods/phase4.py:50-65 | A concrete saga whose second step fails ends compensated: the compensation of the first expects version 2 and the new value, and puts the old value back at version 3 |
| PostgresSource.PostgreSQLLiveConnector.Mutate | reference_labs/white_goods/live/connectors.py:194-284 | The method's database and reply are those of the transaction: every refusal, the replay, the failed precondition, the write |
| PostgresSource.OrdersConserve | reference_labs/white_goods/live/connectors.py:232-284 | Under any requests each order has moved exactly one version per idempotency row recorded against it; no row is rewritten, no order appears or goes |
| PostgresSource.VersionsCountKeys | reference_labs/white_goods/live/connectors.py:232-284 | Under any requests the sum of all record versions grows by the number of new idempotency rows |
| PostgresSource.RepeatedKeyIsInert | reference_labs/white_goods/live/connectors.py:232-248 | Once a key is recorded, no request under it changes the database |
| PostgresSource.AnsweredAgainExactly | reference_labs/white_goods/live/connectors.py:232-248 | Under a key on record an admissible request is answered again with the version recorded if it is the one recorded, and refused otherwise |
| PostgresSource.RestoreUndoes | reference_labs/white_goods/live/connectors.py:249-284 | An update followed by its restoration leaves every order as it was, two versions on for the one |
| PostgresSource.TakesEffectExactly | reference_labs/white_goods/live/connectors.py:194-284 | A request under a new key raises exactly if it is not admissible, and changes the database exactly if it names an order with the version and resolution it is at, which then has the resolution given, one version on |
| PostgresSource.ActionIsAdmissible | reference_labs/white_goods/live/connectors.py:194-231 | The request made of an action is admissible exactly if the action names the asset and one of the two operations, the parameters and preconditions expected, with a readable version and texts or nulls |
| IdentityClusters.Cluster | src/data_source_harness/semantic.py:140-152 | The least set holding the entity and closed under the edges in both directions |
| IdentityClusters.LinkedIsEquivalence | src/data_source_harness/semantic.py:140-152 | Being in one cluster is reflexive, symmetric and transitive |
| IdentityClusters.ClustersPartition | src/data_source_harness/semantic.py:140-152 | Two clusters are equal or disjoint |
| IdentityClusters.MergeJoinsTwo | src/data_source_harness/semantic.py:95-107 | A new edge links two entities only if they were linked or lie across its ends' clusters |
| AssertionGraph.AssertionGraph.EquivalenceCluster | src/data_source_harness/semantic.py:140-152 | Terminates with a set closed under the edges last read; if no assertion starts meanwhile, all of it was linked when the call began; with a standing clock it is exactly the cluster of what AssertionCounts says is in force |
| AssertionGraph.AssertionGraph.Append | src/data_source_harness/semantic.py:89-107 | Refuses exactly a known id; with a standing clock lets in exactly what passes the contradiction test; if no assertion starts meanwhile, lets in whatever passed it when the call began and nothing that fails it when the call ends; keeps a sound graph sound |
| AssertionGraph.AssertionGraph.Retract | src/data_source_harness/semantic.py:109-116 | Refuses exactly unknown, already retracted and predating retractions; keeps a sound graph sound |
| AssertionActivity.AssertionCounts | src/data_source_harness/semantic.py:126-138 | At any pair of times an assertion adds its two ends to those of the other assertions if it was asserted by then, is valid then and is not retracted by then, and nothing otherwise |
| AssertionActivity.RetractionTakesAway | src/data_source_harness/semantic.py:109-138 | For every known time from the retraction on, clusters, contradiction test and consistency are those of the graph without the assertion; for every known time before, those of the graph without the retraction |
| AssertionActivity.DenialAfterRetraction | src/data_source_harness/semantic.py:89-138 | A denial refused only because of an assertion passes the test once the assertion is retracted |
| AssertionActivity.AssertRetractDeny | src/data_source_harness/semantic.py:84-152 | Through the graph's own methods: an identity makes a cluster of two and keeps its denial out; retracted, it leaves its entity alone and the denial is let in |
| AssertionGraph.ConsistentLater | src/data_source_harness/semantic.py:118-138 | A consistent graph stays consistent as assertions expire and retractions take effect |
| AssertionGraph.ExtensionIsExact | src/data_source_harness/semantic.py:89-107 | One more assertion leaves the graph consistent at a pair of times if and only if it was, and the assertion, if active then, passes the contradiction test made for then |
| AssertionHistories.HistoriesStayConsistent | src/data_source_harness/semantic.py:84-152 | Through any history of accepted appends, none ahead of its time, and retractions, by a clock that never goes back, and at all later times, no cluster holds a pair asserted to differ |
| AssertionHistories.ConsistencyIsExact | src/data_source_harness/semantic.py:84-152 | After any appends of new ids and any retractions, ahead of time or not, the graph is consistent at a pair of times if and only if every assertion active then passes the test, made for then, against those appended before it |
| AssertionHistories.PassedForGood | src/data_source_harness/semantic.py:84-152 | In a history without assertions ahead of their time, passing the test when appended means passing it at all later times |
| AssertionHistories.AheadOfTimeContradicts | src/data_source_harness/semantic.py:89-107 | An identity and its denial that are both active later contradict each other then; the denial is let in beside the identity if and only if the identity is not active at the time of the call |
| SemanticMemory.GovernedSemanticMemory.Review | src/data_source_harness/semantic_memory.py:76-98 | Only a human decides, only once, only on a proposed candidate |
| SemanticMemory.GovernedSemanticMemory.Promote | src/data_source_harness/semantic_memory.py:100-116 | Refuses exactly the unknown, the not approved and the unreviewed, and otherwise leaves the verdict to the graph; on success the assertion enters the graph and is promoted once, otherwise nothing changes but the clock; a human stands behind a promotion exactly if its candidate was handed in for review or with a human's approval; a sound graph stays sound |
| SemanticMemory.GovernedSemanticMemory.View | src/data_source_harness/semantic_memory.py:118-123 | Exactly the promoted memories whose scope allows the identity, each once, in order of candidate id |
| SemanticMemory.ApprovedByAnAgent | src/data_source_harness/semantic_memory.py:73-116 | A candidate handed in with an agent's approval is promoted although no human saw it |
| SemanticMemory.HumansAreNamed | src/data_source_harness/semantic_memory.py:84 | A reviewer counts as human exactly if the name is "human:" followed by anything |
| Governance.ApprovedIds | src/data_source_harness/governance.py:140-150 | The approved mappings, sorted, each once, quarantined ones only on request |
| Governance.ApprovedFor | src/data_source_harness/governance.py:152-153 | Exactly the approved, never drifted mappings of the concept, each once |
| Governance.SemanticMappingRegistry.Propose | src/data_source_harness/governance.py:91-94 | Refuses a known id, otherwise files the candidate |
| Governance.SemanticMappingRegistry.Review | src/data_source_harness/governance.py:96-104 | Refuses unknown, already reviewed and predating reviews, otherwise files the review |
| Governance.SemanticMappingRegistry.DetectDrift | src/data_source_harness/governance.py:106-130 | Quarantines and returns what the comparison with the observed schema finds, and changes nothing else |
| Governance.WithDriftFacts | src/data_source_harness/governance.py:106-130 | Exactly the approved mappings of the asset made for another schema are added, with both digests |
| Governance.QuarantinesExactly | src/data_source_harness/governance.py:106-130 | Comparing with the observed schema quarantines and reports, with both digests, exactly the approved mappings of the asset made for another schema, and leaves the rest of the drift table alone |
| Governance.DecisionsAreFinal | src/data_source_harness/governance.py:91-130 | Over any sequence of operations, each of which is what the methods ensure, a rejected or quarantined mapping is never approved again and no candidate or review is rewritten |
| Freshness.FreshnessRegistry.Record | src/data_source_harness/freshness.py:64-69 | Refuses exactly an observation older than the one held; no observation time ever goes back |
| Freshness.CutTowardZero | src/data_source_harness/freshness.py:92 | An age is reported in whole milliseconds, cut off toward zero |
| Freshness.CheckpointLedger.Record | src/data_source_harness/freshness.py:106-120 | Accepts exactly what keeps position, time and connector version; no stream ever moves back |
| Routing.TopTwoDecides | src/data_source_harness/routing.py:92-106 | Comparing the two best ranked mappings decides whether some mapping beats all rivals by more than the margin |
| Routing.ChoiceDecides | src/data_source_harness/routing.py:72-106 | A concept's outcome is nothing, unclear or a winner exactly as no mapping is eligible, none wins, or that one wins |
| SemanticRouter.SemanticSourceRouter.Route | src/data_source_harness/routing.py:65-152 | The loops over concepts and candidates, the sort and the lists they collect compute the decision function of what the registries hold; RouterCharacterised, SelectedIsFresh, PassedOverExactly and the reports say what it decides |
| SemanticRouter.SemanticSourceRouter.RouteConcept | src/data_source_harness/routing.py:72-109 | One iteration files the concept under its outcome and, if there is a winner, under the winner's target |
| SemanticRouter.Sift | src/data_source_harness/routing.py:73-91 | The candidate loop keeps exactly the eligible mappings in order, and knows which are degraded and whether any was passed over as stale, by the recorded times as in EligibleExactly |
| SourceRouter.RouterCharacterised | src/data_source_harness/routing.py:110-152 | Escalation if and only if some concept has eligible mappings but no winner; selection if and only if every concept has a winner and the winners' targets fit the bound |
| SourceRouter.SelectionCoversEachConceptOnce | src/data_source_harness/routing.py:133-152 | In a selection the routes' concepts together are exactly the requested concepts, repeats included |
| SourceRouter.SelectedRoutesAreSound | src/data_source_harness/routing.py:133-152 | Each selected route carries, for each of its concepts, a winner of its own asset, and the routes are in strictly increasing order of source and asset |
| RouteFreshness.EligibleExactly | src/data_source_harness/routing.py:73-91 | A mapping is eligible if and only if it is approved, not drifted, of the concept and confident enough, and its asset was observed with a source event time no more than max_age before the request and not after it, or breaches degrade |
| RouteFreshness.SelectedIsFresh | src/data_source_harness/routing.py:81-91 | In a selection every routed asset has a recorded source event time inside the window, or breaches degrade |
| RouteFreshness.DegradedExactly | src/data_source_harness/routing.py:133-152 | A concept of a selected route is reported as degraded exactly if its asset was never observed or its source event time lies outside the window |
| RouteFreshness.PassedOverExactly | src/data_source_harness/routing.py:81-132 | A refusal names a concept as stale, or as refused for freshness, exactly if the objective excludes, or refuses, and some suitable mapping's asset was never observed or lies outside the window |
| RouteFreshness.RouteShowsWatermark | src/data_source_harness/routing.py:133-152 | A route shows the watermark recorded for its asset, or "missing" |
| RouteReports.EscalationReports | src/data_source_harness/routing.py:110-120 | An escalation lists, sorted, exactly the requested concepts that no mapping covers or that are ambiguous, and gives exactly the ambiguous ones as reasons |
| RouteReports.RefusalReports | src/data_source_harness/routing.py:121-132 | A refusal lists, sorted, exactly the requested concepts that no mapping covers, and gives them and a broken bound on sources as reasons |
| RouteReports.AnswersItsRequest | src/data_source_harness/routing.py:110-152 | Every decision carries its request's id; only a selection has routes, and it leaves nothing uncovered |
| RouteReports.RouteAddsUp | src/data_source_harness/routing.py:133-152 | A selected route's score is the mean confidence of its mappings and its lineage is exactly theirs |
| PackDatasets.GenerateRow | src/data_source_harness/pack_factory.py:137-156 | The field loop draws exactly the row function's cells, asking the generator the same questions in the same order |
| PackDatasets.GenerateDataset | src/data_source_harness/pack_factory.py:123-158 | The row loop yields exactly the dataset function's rows or its error |
| PackDatasets.RowsFit | src/data_source_harness/pack_factory.py:123-158 | A dataset has its row count and each row exactly its declared fields: serial numbers by row, values the blueprint allows, the parent's value at row index modulo the parent's size, nulls only where a null rate permits |
| PackDatasets.RowsLookAtParentsOnly | src/data_source_harness/pack_factory.py:150-153 | A dataset's rows depend on no dataset but those it refers to |
| PackFactory.Generate | src/data_source_harness/pack_factory.py:100-121 | Terminates; the outcome is the pack and a dependency order exists, or the ids of exactly the datasets no order reaches, all others being generated, or the name of a field that some row of a dataset whose turn comes looks up in vain |
| PackFactory.Sweep | src/data_source_harness/pack_factory.py:105-118 | One pass over the snapshot either makes progress or shows that nothing waiting can start |
| PackFactory.GeneratedIffOrderable | src/data_source_harness/pack_factory.py:100-121 | When reference fields exist, generation succeeds if and only if a dependency order exists, and otherwise names exactly what no order reaches |
| PackFactory.GenerationIsExact | src/data_source_harness/pack_factory.py:100-158 | For any definition: generation succeeds if and only if there is a dependency order and a solution, and fails over a missing field if and only if some dataset an order reaches looks one up in vain |
| PackFactory.ReorderingIsIrrelevant | src/data_source_harness/pack_factory.py:100-121 | Listing the same datasets in another order gives the same pack, names the same unreachable datasets, or fails over a missing field as well |
| PackFactory.SolutionFits | src/data_source_harness/pack_factory.py:100-158 | Every dataset of a generated pack has all its rows, and every row fits its parents |
| PackDraws.NullsFollowRates | src/data_source_harness/pack_factory.py:137-146 | In a generated pack no cell drawn for itself is null if the generator's chances are never below its field's null rate, and every cell of a field with a positive rate is if they always are |
| PackDraws.CellAsks | src/data_source_harness/pack_factory.py:137-156 | For a cell the generator is asked for a chance exactly if the field may be null, and then for a value of the field's kind exactly if the cell is not null |
| PackDraws.RowDrawsAnew | src/data_source_harness/pack_factory.py:137-156 | The questions of a row only grow, by at least one for every cell that is drawn |
| PackDraws.SeedsExactly | src/data_source_harness/pack_factory.py:123-130 | Without collisions two datasets share a seed if and only if pack, version, pack seed and dataset are the same |
| PackDraws.WithoutReferencesGenerates | src/data_source_harness/pack_factory.py:100-121 | A definition without reference fields is always generated |
| PackDraws.WaitsForReferencesOnly | src/data_source_harness/pack_factory.py:105-112 | A dataset can start exactly when the targets of its reference fields are there |
| Coordination.Execute | src/data_source_harness/coordination.py:98-146 | Raises only on a mismatched identity or a cancelled step; otherwise the statement is always acceptable and says of each expected source what happened to it |
| Coordination.Gather | src/data_source_harness/coordination.py:112-126 | The outcome loop collects exactly the successes in order, the errors and the answered assets of each source |
| Coordination.StatementIsTrue | src/data_source_harness/coverage.py:42-60 | Building the statement never raises; excluded is exactly the sources with a failed step, included the rest of the expected ones, each with exactly the assets its steps covered |
| Coordination.ResultIsHonest | src/data_source_harness/coverage.py:62-71 | The result is complete if and only if every step succeeded, and its lineage is exactly that of the successful steps, each reference once |
| Coverage.CompleteExactly | src/data_source_harness/coverage.py:62-71 | A statement is complete if and only if something is included, nothing excluded, and every source that was expected or is included answered in full |
| Coordination.DetailNamesErrors | src/data_source_harness/coordination.py:127-135 | Where the error types hold no comma, splitting the detail of an exclusion gives exactly the errors its source failed with |
| Coordination.UniqueLineage | src/data_source_harness/coordination.py:166-174 | The dict loop yields the sorted first occurrences |
| Coordination.UniqueLineageFacts | src/data_source_harness/coordination.py:166-174 | The same references, each once, ordered by the first of source, asset, record and field in which they differ, an absent record or field counting as empty |
| Ordering.CodePointOrder | src/data_source_harness/coordination.py:124-134 | The order of every sorted list of texts: a text comes before what it begins, and otherwise the first differing character decides |
| QueryPlanning.CompiledPlansAreBounded | src/data_source_harness/planning.py:88-126 | A compiled plan keeps to its assets, its constraints' fields and relationships and all three bounds |
| QueryPlanning.CompilesExactly | src/data_source_harness/planning.py:88-126 | An intent compiles if and only if it has a source, assets and a purpose, is within all three bounds, selects fields for exactly its assets, and keeps to the constraints' fields and relationships and to its own assets |
| QueryPlanning.WhenPlansBecomeRequests | src/data_source_harness/planning.py:60-78 | A compiled plan becomes a request unless an asset id is empty or the purpose is white space, which the planner does not check |
| QueryPlanning.PlannedRequestsAllowed | src/data_source_harness/policy.py:113-154 | A compiled request is allowed if and only if the base policy allows it and the grant names everything it touches |
| QueryPlanning.CoveringGrantAdmitsAll | src/data_source_harness/policy.py:113-154 | A grant that covers the constraints admits every plan compiled under them |
| QueryPlanning.AllowedTouchesOnlyGranted | src/data_source_harness/policy.py:113-154 | Whatever request is allowed, planned or not, names only granted assets, fields and relationships |
| QueryPlanning.AllowedExactly | src/data_source_harness/policy.py:113-154 | Any query, planned or not, is allowed if and only if the base policy allows it and a grant names its assets and all it selects for exactly them, filters by and joins over; a part it does not mention touches nothing |
| QueryPlanning.OnlyQueriesAreChecked | src/data_source_harness/policy.py:113-120 | Where the base policy refuses or the capability is not a query, the base decision stands |
| BatchGateway.ExecuteBatches | src/data_source_harness/runtime.py:65-105 | Yields the longest prefix of the connector's batches within the row and byte bounds and from the right source, then ends as the connector did or reports the first check the next batch fails |
| BatchGateway.OneMoreBatch | src/data_source_harness/runtime.py:65-101 | The checks pass a batch if and only if all batches together are still within bounds |
| BatchGateway.MeasuredInFull | src/data_source_harness/runtime.py:201-225 | A batch counts for no fewer bytes than its payload takes and than it claims, and for as many rows as it lists, and is malformed exactly if its payload cannot be serialized or its claimed row count is not what it lists |
| BatchGateway.BoundsHoldThroughout | src/data_source_harness/runtime.py:65-101 | What is within bounds was within bounds at every yield |
| BatchGateway.PlannedRowsBounded | src/data_source_harness/runtime.py:65-101 | At every yield the rows handed to the caller of a compiled plan are within the planner's row bound |
| Paging.CursorRoundTrip | reference_labs/white_goods/live/service_api.py:28-37 | The cursor written for an offset is read back as that offset |
| Paging.PageAt | reference_labs/white_goods/live/service_api.py:15-38 | The page at a cursor is the next slice of the filtered list, and its cursor points just past it or is absent at the end |
| Paging.RefusedExactly | reference_labs/white_goods/live/service_api.py:27-32 | The service refuses exactly a cursor that is not a number or is negative |
| Paging.FilterKeeps | reference_labs/white_goods/live/service_api.py:22-26 | The filter keeps exactly the appointments of the order named, all if none is, in order |
| Paging.ReadAppointments | reference_labs/white_goods/live/connectors.py:517-528 | The client loop terminates with exactly the first min(limit, N) appointments in order |
| Paging.ZeroPageStalls | reference_labs/white_goods/live/service_api.py:15-38 | With a page size of zero every page before the end is empty and returns the cursor it was asked for |
| Paging.MinusOneStalls | reference_labs/white_goods/live/service_api.py:15-38 | With a page size of minus one the first page holds all rows but the last, and every later one is empty and returns its own cursor |
| Paging.YieldPages | reference_labs/white_goods/lab.py:552-577 | The batches are the pages from the cursor on of the bounded, filtered list, and an empty one if the list is empty; a page size below one raises |
| Paging.PagesAreTheRest | reference_labs/white_goods/lab.py:561-569 | From a cursor that is not negative the pages are exactly the rest of the list, none empty and all but the last full |
| Paging.PagesFromBelow | reference_labs/white_goods/lab.py:561-569 | From a negative cursor the pages cut by negative bounds come first, and after them the whole list but for less than a page |
| EventReplay.EventConnector.LogicalEvents | reference_labs/white_goods/lab.py:484-492 | The loop keeps the first delivery of each identified event in sequence order |
| EventReplay.EventConnector.Subscribe | reference_labs/white_goods/lab.py:503-517 | Announces exactly the events after the checkpoint, each with its own; raises exactly on a checkpoint that is not a number |
| EventReplay.StreamFacts | reference_labs/white_goods/lab.py:484-492 | In sequence order, every identified event id exactly once |
| EventReplay.NothingMissed | reference_labs/white_goods/lab.py:503-508 | A subscription is the whole stream if and only if every event lies after its checkpoint, which is 0 where none is given |
| EventReplay.ZeroIsNeverAnnounced | reference_labs/white_goods/lab.py:503-508 | An identified event with sequence 0 is in the stream and in no subscription without a checkpoint |
| EventReplay.ResumeIsSeamless | reference_labs/white_goods/lab.py:503-517 | Reading k events of a subscription opened at any checkpoint and resuming from the last one's checkpoint yields that subscription if and only if the next event has a later sequence |
| EventReplay.PartsMakeTheWhole | reference_labs/white_goods/lab.py:503-517 | However often a subscription is left and resumed, it loses and repeats nothing, if and only if its sequences ascend strictly |
| EventReplay.UniqueSequencesResume | reference_labs/white_goods/lab.py:503-517 | With unique sequences a subscription from any checkpoint can be left and resumed anywhere and any number of times without gap or repeat |
| Packaging.VerifySignedPackage | src/data_source_harness/packaging.py:158-216 | The checks in order, with the running total, compute the archive's fault or accept it |
| Packaging.BuiltPackagesVerify | src/data_source_harness/packaging.py:69-216 | For any three proper document names, verify accepts what build wrote if and only if no file takes one of them, no path holds a NUL and the archive is within limits |
| PackageContents.BuildRefusesExactly | src/data_source_harness/packaging.py:69-79 | build refuses exactly no files at all, a path from the root, and a path with a segment ".." |
| PackageContents.AcceptedExactly | src/data_source_harness/packaging.py:158-216 | verify accepts an archive if and only if its paths are distinct and are those of its manifest with the three documents, it is within limits, files and SBOM are those of the manifest, and the signature over both is the signer's |
| PackageContents.WithinLimitsExactly | src/data_source_harness/packaging.py:158-182 | An archive is within limits exactly if it has no more entries, no larger entry, no worse compression and no more bytes in all than they allow |
| PackageContents.SbomIsFull | src/data_source_harness/packaging.py:91-132 | The SBOM names every file with its digest and every dependency with its version, and nothing else |
| PackageContents.SbomGraphIsFull | src/data_source_harness/packaging.py:107-132 | In the graph the application depends on every component in order, and no component on anything |
| Packaging.SignedPackagesVerify | src/data_source_harness/packaging.py:69-216 | In particular for the three names under META-INF that the packages use |
| Packaging.NoDocumentHoldsItself | src/data_source_harness/packaging.py:133-146 | No packaged file can equal a document that carries its digest |
| Packaging.AcceptedIsBuilt | src/data_source_harness/packaging.py:158-216 | An accepted archive whose signature was issued for some build carries exactly that build's files and manifest |
| Packaging.OneSignatureOneContent | src/data_source_harness/packaging.py:158-216 | Two accepted archives with one signature hold the same files |

## Left out

- SQL text, SQLite pragmas and transactions, psycopg: each block under one connection is one atomic step on maps and a sequence; a PostgreSQL transaction that aborts is a request that never arrived.
- Several processes on one journal: at-most-once dispatch is not promised there; the sources' conservation lemmas hold for any number of gateways.
- asyncio scheduling, semaphores, deadlines, `worker.py` and `worker_connector.py`: only the interleaving at awaits is kept, and a connector's own ending is a parameter of `BatchGateway.ExecuteBatches`.
- Gateway.ActionGateway.Preview: policies, clocks, the short digest in a preview id and telemetry are an environment the theorems quantify over; a failing emit appends one audit entry and nothing else of telemetry is modelled. A source that is registered without the capability to mutate counts as not registered.
- Actions.ApprovalHolds: the approval verifier is any predicate; `ApprovalAuthority` gives the HMAC one and does not model key length.
- RecoveryTheorems.JournalMatchesSource: needs the gateway to be the only writer of its sources, as the code does.
- Sagas over the durable gateway that end in an unknown outcome: the error leaves the saga uncompensated.
- Journal.SQLiteActionJournal.Verify: rows that cannot be decoded are not modelled, so the exception paths of row decoding are not.
- Constructor checks of the frozen dataclasses: assumed of the values handed in, except where a checked construction is part of a property (query requests, coverage statements, archive limits).
- Floats: confidences and scores are reals; a float in a request is known by its text and its truncation.
- QueryPlanning.ShapeRefusal: an asset's field list that is not a list, and fields that are not texts, are not modelled.
- SourceRouter.DecisionOf: reason codes are a tag and a concept instead of one text.
- PostgresSource.PostgreSQLLiveConnector.Mutate: a resolution that is neither text nor null is refused as a bad value, where the driver would raise.
- PackDatasets.CellOf: the random generator is an arbitrary function of the seed and of everything asked so far; record field order, the JSON and CSV renderings and file output are not modelled.
- Coordination.Execute: batches and hits are reduced to their lineage, and the concurrent steps to their outcomes.
- Paging.ReadAppointments: needs a page size of at least one. On a list that is not empty the loop never ends with a page size of zero (`ZeroPageStalls`); with a negative one, which slices count from the end, it may end or not (`MinusOneStalls`: with -1 it ends if the limit is reached before the last row). HTTP, credentials and the lineage of rows are not modelled.
- Paging.YieldPages: the lineage of a batch, and a page size or cursor that int() refuses, are not modelled.
- AssertionGraph.AssertionGraph.Append: when an assertion already in the graph starts while the call reads the clock, the verdict is not pinned down; it then mixes readings from before and after.
- Scalars.ParseInt: int() also reads the decimal digits of other scripts and refuses more digits than the interpreter is set to convert; here digits are ASCII and numbers have any length.
- Packaging.Build: the zip container is its list of entries with their sizes; an SBOM's bom-refs are structured values instead of text.
- Semantic redirects, `step` lookup, the search path of the gateway, `discover`: record plumbing.
- Protocol and delegation adapters, `decoder.py`, `deployment.py`, `scaffolding.py`, `connector.py`, `evidence.py`, `promotion.py`, `acceptance.py`, `context.py`, the certification scripts, the labs' containers and the command line: field checks and input or output.
