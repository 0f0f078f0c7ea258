/** Concrete runs in which a settled record is overwritten, an applied action is recorded as failed, and verify() refuses a sound journal. */
module RecoveryWitnesses {
  import opened Wrappers
  import opened Scalars
  import opened AuditLedger
  import opened Actions
  import opened LabSource
  import opened Journal
  import opened JournalIntegrity
  import opened RecoveryMachine
  import opened RecoverySafety
  import opened RecoveryTheorems

  // An action on a one-row source, and the run in which a reconciliation that asked too early answers too late.
  const SAMPLE := SourceActionPlan("act", "src", "row", "set", map["newValue" := Text("b")],
    map["expectedVersion" := Number(1), "expectedValue" := Text("a")], "key", Low, NoApproval, "demo", None)

  function SampleWorld(): World {
    World(EMPTY, map["src" := LabState("row", "a", 1, 0, map[])], map[], {}, [])
  }

  /** Executed is left in a real run: the hypothesis of TerminalLeftExactly is not vacuous. */
  lemma ExecutedCanBeUnsettled(done: Completion, yes: PolicyDecision)
    requires yes.allowed
    ensures Initial(SampleWorld())
    ensures var w1 := Next(Next(SampleWorld(), Enter(0, SAMPLE, 0)), Authorized(0, yes));
      var w2 := Next(Next(Next(w1, EnterReconcile(1, SAMPLE)), ReconcileAuthorized(1, yes)), Answer(1));
      var w3 := Next(Next(w2, Deliver(0)), Resume(0, false, done));
      var w4 := Next(w3, ResumeReconcile(1, done));
      && KeyOf(SAMPLE) in w3.journal.records && w3.journal.records[KeyOf(SAMPLE)].state.Executed?
      && KeyOf(SAMPLE) in w4.journal.records && w4.journal.records[KeyOf(SAMPLE)].state == ReconciliationRequired
      && Held(w4, KeyOf(SAMPLE))
  {
    SampleSent(yes);
    var w1 := Next(Next(SampleWorld(), Enter(0, SAMPLE, 0)), Authorized(0, yes));
    SampleAsked(w1, yes);
    var w2 := Next(Next(Next(w1, EnterReconcile(1, SAMPLE)), ReconcileAuthorized(1, yes)), Answer(1));
    SampleExecuted(w2, done);
  }

  ghost predicate SampleInFlight(w: World) {
    && w.sources == SampleWorld().sources
    && 0 in w.calls && w.calls[0].AwaitingSource? && w.calls[0].action == SAMPLE
    && Bound(w.journal, SAMPLE) && w.journal.records[KeyOf(SAMPLE)].state == Executing
  }

  ghost predicate SampleDenied(w: World) {
    1 in w.calls && w.calls[1].ReconcileReturned? && w.calls[1].action == SAMPLE && !Proven(w.calls[1].reply)
  }

  lemma SampleSent(yes: PolicyDecision)
    requires yes.allowed
    ensures var w1 := Next(Next(SampleWorld(), Enter(0, SAMPLE, 0)), Authorized(0, yes));
      SampleInFlight(w1) && w1.calls.Keys == {0}
  {
  }

  lemma SampleAsked(w1: World, yes: PolicyDecision)
    requires SampleInFlight(w1) && w1.calls.Keys == {0} && yes.allowed
    ensures var w2 := Next(Next(Next(w1, EnterReconcile(1, SAMPLE)), ReconcileAuthorized(1, yes)), Answer(1));
      SampleInFlight(w2) && SampleDenied(w2)
  {
  }

  lemma SampleExecuted(w2: World, done: Completion)
    requires SampleInFlight(w2) && SampleDenied(w2)
    ensures var w3 := Next(Next(w2, Deliver(0)), Resume(0, false, done));
      var w4 := Next(w3, ResumeReconcile(1, done));
      && KeyOf(SAMPLE) in w3.journal.records && w3.journal.records[KeyOf(SAMPLE)].state.Executed?
      && KeyOf(SAMPLE) in w4.journal.records && w4.journal.records[KeyOf(SAMPLE)].state == ReconciliationRequired
      && Held(w4, KeyOf(SAMPLE))
  {
  }

  // --- A request that arrives after its caller is gone ---

  function Reconciled(w: World, yes: PolicyDecision, done: Completion): World {
    Next(Next(Next(Next(w, EnterReconcile(1, SAMPLE)), ReconcileAuthorized(1, yes)), Answer(1)), ResumeReconcile(1, done))
  }

  // The request is on its way, nobody waits for it, and the record says so.
  ghost predicate SampleAdrift(w: World, state: DurableState) {
    && w.sources == SampleWorld().sources && w.calls == map[] && w.adrift == {SAMPLE}
    && Bound(w.journal, SAMPLE) && w.journal.records[KeyOf(SAMPLE)].state == state
  }

  lemma SampleLost(yes: PolicyDecision)
    requires yes.allowed
    ensures SampleAdrift(Next(Next(Next(SampleWorld(), Enter(0, SAMPLE, 0)), Authorized(0, yes)), Crash), Executing)
  {
    var w := Next(Next(SampleWorld(), Enter(0, SAMPLE, 0)), Authorized(0, yes));
    assert w.calls.Keys == {0} && w.calls[0].AwaitingSource? && w.calls[0].action == SAMPLE;
    assert (set id | id in w.calls && w.calls[id].AwaitingSource? :: w.calls[id].action) == {SAMPLE};
  }

  lemma SampleUnresolved(w: World, yes: PolicyDecision, done: Completion)
    requires SampleAdrift(w, Executing) && yes.allowed
    ensures SampleAdrift(Reconciled(w, yes, done), ReconciliationRequired)
  {
  }

  lemma SampleLands(w: World, yes: PolicyDecision, done: Completion)
    requires SampleAdrift(w, ReconciliationRequired) && yes.allowed
    ensures var landed := Next(w, DeliverAdrift(SAMPLE)); var t := Reconciled(landed, yes, done);
      && landed.journal == w.journal && landed.adrift == {} && Held(landed, KeyOf(SAMPLE)) && landed.sources["src"].version == 2
      && t.sources == landed.sources && KeyOf(SAMPLE) in t.journal.records && t.journal.records[KeyOf(SAMPLE)].state.Executed?
  {
    SampleArrives(w);
    SampleProven(Next(w, DeliverAdrift(SAMPLE)), yes, done);
  }

  lemma SampleArrives(w: World)
    requires SampleAdrift(w, ReconciliationRequired)
    ensures var t := Next(w, DeliverAdrift(SAMPLE));
      && t.journal == w.journal && t.calls == map[] && t.adrift == {} && Held(t, KeyOf(SAMPLE)) && t.sources.Keys == {"src"}
      && t.sources["src"].version == 2 && t.sources["src"].idempotency == map["key" := ("act", MutationReply(true, true, IntText(2), false))]
  {
  }

  lemma SampleProven(w: World, yes: PolicyDecision, done: Completion)
    requires w.calls == map[] && w.sources.Keys == {"src"} && yes.allowed
    requires w.sources["src"].idempotency == map["key" := ("act", MutationReply(true, true, IntText(2), false))]
    requires Bound(w.journal, SAMPLE) && w.journal.records[KeyOf(SAMPLE)].state == ReconciliationRequired
    ensures var t := Reconciled(w, yes, done);
      t.sources == w.sources && KeyOf(SAMPLE) in t.journal.records && t.journal.records[KeyOf(SAMPLE)].state.Executed?
  {
    hide ReconcileNext, FinishNext;
    SampleAnswered(w, yes);
    var asked := Next(Next(Next(w, EnterReconcile(1, SAMPLE)), ReconcileAuthorized(1, yes)), Answer(1));
    SampleCompleted(asked, done);
  }

  ghost predicate SampleConfirmed(w: World) {
    && 1 in w.calls && w.calls[1].ReconcileReturned? && w.calls[1].action == SAMPLE && Proven(w.calls[1].reply)
    && Bound(w.journal, SAMPLE)
  }

  lemma SampleAnswered(w: World, yes: PolicyDecision)
    requires w.calls == map[] && w.sources.Keys == {"src"} && yes.allowed
    requires w.sources["src"].idempotency == map["key" := ("act", MutationReply(true, true, IntText(2), false))]
    requires Bound(w.journal, SAMPLE) && w.journal.records[KeyOf(SAMPLE)].state == ReconciliationRequired
    ensures var t := Next(Next(Next(w, EnterReconcile(1, SAMPLE)), ReconcileAuthorized(1, yes)), Answer(1));
      SampleConfirmed(t) && t.sources == w.sources
  {
  }

  lemma SampleCompleted(w: World, done: Completion)
    requires SampleConfirmed(w)
    ensures var t := Next(w, ResumeReconcile(1, done));
      t.sources == w.sources && KeyOf(SAMPLE) in t.journal.records && t.journal.records[KeyOf(SAMPLE)].state.Executed?
  {
  }

  /** The process dies with a request on its way; reconciling at once finds nothing, the request arrives, and reconciling again completes the record. */
  lemma LateArrival(yes: PolicyDecision, done: Completion)
    requires yes.allowed
    ensures var dead := Next(Next(Next(SampleWorld(), Enter(0, SAMPLE, 0)), Authorized(0, yes)), Crash);
      var early := Reconciled(dead, yes, done); var landed := Next(early, DeliverAdrift(SAMPLE)); var late := Reconciled(landed, yes, done);
      && KeyOf(SAMPLE) in early.journal.records && early.journal.records[KeyOf(SAMPLE)].state == ReconciliationRequired
      && early.sources == SampleWorld().sources && Held(landed, KeyOf(SAMPLE)) && landed.sources["src"].version == 2
      && late.sources == landed.sources && KeyOf(SAMPLE) in late.journal.records && late.journal.records[KeyOf(SAMPLE)].state.Executed?
  {
    hide Next, Reconciled, Held;
    SampleLost(yes);
    var dead := Next(Next(Next(SampleWorld(), Enter(0, SAMPLE, 0)), Authorized(0, yes)), Crash);
    SampleUnresolved(dead, yes, done);
    SampleLands(Reconciled(dead, yes, done), yes, done);
  }

  // --- Applied, and recorded as failed ---

  // The same action with a number for its value.
  const NUMBERED := SAMPLE.(parameters := map["newValue" := Number(2)])

  function NumberedRun(yes: PolicyDecision, done: Completion): seq<Step> {
    [Enter(0, NUMBERED, 0), Authorized(0, yes), Deliver(0), Resume(0, false, done)]
  }

  lemma RunFour(w: World, a: Step, b: Step, c: Step, d: Step)
    ensures Run(w, [a, b, c, d]) == Next(Next(Next(Next(w, a), b), c), d)
  {
    hide Next;
    assert [a, b, c, d][..3] == [a, b, c] && [a, b, c][..2] == [a, b] && [a, b][..1] == [a] && [a][..0] == [];
    assert Run(w, [a]) == Next(w, a);
    assert Run(w, [a, b]) == Next(Next(w, a), b);
    assert Run(w, [a, b, c]) == Next(Next(Next(w, a), b), c);
  }

  lemma NumberedSent(yes: PolicyDecision)
    requires yes.allowed
    ensures var w1 := Next(Next(SampleWorld(), Enter(0, NUMBERED, 0)), Authorized(0, yes));
      && w1.sources == SampleWorld().sources && w1.calls.Keys == {0}
      && w1.calls[0].AwaitingSource? && w1.calls[0].action == NUMBERED
      && w1.journal.records.Keys == {KeyOf(NUMBERED)} && Bound(w1.journal, NUMBERED)
  {
  }

  lemma NumberedFails(w1: World, done: Completion)
    requires w1.sources == SampleWorld().sources && w1.calls.Keys == {0}
    requires w1.calls[0].AwaitingSource? && w1.calls[0].action == NUMBERED
    requires w1.journal.records.Keys == {KeyOf(NUMBERED)} && Bound(w1.journal, NUMBERED)
    ensures var t := Next(Next(w1, Deliver(0)), Resume(0, false, done));
      && t.journal.records.Keys == {KeyOf(NUMBERED)} && t.journal.records[KeyOf(NUMBERED)].state == DurableState.Failed
      && Held(t, KeyOf(NUMBERED)) && t.sources["src"].version == 2
  {
  }

  /**
   The source applies an action whose value is a number, and the gateway records it as failed; verify() then refuses
   the journal although no two keys share an action id.
   */
  lemma AppliedAndFailed(yes: PolicyDecision, done: Completion)
    requires yes.allowed
    ensures var t := Run(SampleWorld(), NumberedRun(yes, done));
      && KeyOf(NUMBERED) in t.journal.records && t.journal.records[KeyOf(NUMBERED)].state == DurableState.Failed
      && Held(t, KeyOf(NUMBERED)) && t.sources["src"].version == 2
      && DistinctActionIds(t.journal) && !Accepted(t.journal)
  {
    hide Next, Accepted, Bound, Held;
    RunFour(SampleWorld(), Enter(0, NUMBERED, 0), Authorized(0, yes), Deliver(0), Resume(0, false, done));
    NumberedSent(yes);
    NumberedFails(Next(Next(SampleWorld(), Enter(0, NUMBERED, 0)), Authorized(0, yes)), done);
    VerifyInRuns(SampleWorld(), NumberedRun(yes, done));
  }

  // --- One action id under two keys ---

  const TWIN := SAMPLE.(idempotencyKey := "twin")

  function TwinRun(yes: PolicyDecision): seq<Step> {
    [Enter(0, SAMPLE, 0), Authorized(0, yes), Enter(1, TWIN, 0), Authorized(1, yes)]
  }

  lemma TwinSent(w1: World, yes: PolicyDecision)
    requires yes.allowed && w1.sources == SampleWorld().sources && w1.calls.Keys == {0}
    requires w1.journal.records.Keys == {KeyOf(SAMPLE)} && w1.journal.records[KeyOf(SAMPLE)].actionId == SAMPLE.actionId
    requires w1.journal.records[KeyOf(SAMPLE)].state == Executing
    ensures var records := Next(Next(w1, Enter(1, TWIN, 0)), Authorized(1, yes)).journal.records;
      && records.Keys == {KeyOf(SAMPLE), KeyOf(TWIN)} && records[KeyOf(SAMPLE)].actionId == records[KeyOf(TWIN)].actionId
      && records[KeyOf(SAMPLE)].state == Executing && records[KeyOf(TWIN)].state == Executing
  {
  }

  lemma SampleRecorded(yes: PolicyDecision)
    requires yes.allowed
    ensures var w1 := Next(Next(SampleWorld(), Enter(0, SAMPLE, 0)), Authorized(0, yes));
      && w1.sources == SampleWorld().sources && w1.calls.Keys == {0}
      && w1.journal.records.Keys == {KeyOf(SAMPLE)} && w1.journal.records[KeyOf(SAMPLE)].actionId == SAMPLE.actionId
      && w1.journal.records[KeyOf(SAMPLE)].state == Executing
  {
  }

  /** Two keys may share an action id; verify() then refuses the journal although nothing failed. */
  lemma SharedActionId(yes: PolicyDecision)
    requires yes.allowed
    ensures var t := Run(SampleWorld(), TwinRun(yes));
      && KeyOf(SAMPLE) in t.journal.records && KeyOf(TWIN) in t.journal.records && KeyOf(SAMPLE) != KeyOf(TWIN)
      && NoneFailed(t.journal) && !Accepted(t.journal)
  {
    hide Next, Accepted;
    RunFour(SampleWorld(), Enter(0, SAMPLE, 0), Authorized(0, yes), Enter(1, TWIN, 0), Authorized(1, yes));
    SampleRecorded(yes);
    TwinSent(Next(Next(SampleWorld(), Enter(0, SAMPLE, 0)), Authorized(0, yes)), yes);
    VerifyInRuns(SampleWorld(), TwinRun(yes));
  }
}
