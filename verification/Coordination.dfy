/** Running the steps of a cross-source plan, and reporting every omission. */
module Coordination {
  import opened Wrappers
  import opened Scalars
  import opened Ordering
  import opened Models
  import opened Coverage

  // A query or search step; a valid one names its source and expects some asset.
  datatype Step = Step(stepId: string, sourceId: string, assetIds: seq<string>)

  // What running it came to; gather() returns exceptions as outcomes.
  datatype StepOutcome = Completed(lineage: seq<LineageRef>) | Failed(errorType: string) | Cancelled

  datatype StepRun = StepRun(step: Step, outcome: StepOutcome)
  {
    predicate Valid() {
      step.stepId != [] && step.sourceId != [] && step.assetIds != [] && (outcome.Failed? ==> outcome.errorType != [])
    }
  }

  datatype StepResult = StepResult(stepId: string, sourceId: string, assetIds: seq<string>, lineage: seq<LineageRef>)

  datatype CoordinationResult = CoordinationResult(
    requestId: string, steps: seq<StepResult>, coverage: CoverageStatement, lineage: seq<LineageRef>)

  datatype CoordinationError = IdentityMismatch | StepCancelled | InvalidCoverage

  // --- What happened, as sets ---

  function SourcesOf(runs: seq<StepRun>): set<string> {
    set r | r in runs :: r.step.sourceId
  }

  function FailedSources(runs: seq<StepRun>): set<string> {
    set r | r in runs && r.outcome.Failed? :: r.step.sourceId
  }

  function ErrorsOf(runs: seq<StepRun>, sourceId: string): set<string> {
    set r | r in runs && r.outcome.Failed? && r.step.sourceId == sourceId :: r.outcome.errorType
  }

  function AnsweringSources(runs: seq<StepRun>): set<string> {
    set r | r in runs && r.outcome.Completed? :: r.step.sourceId
  }

  function AnsweredAssets(runs: seq<StepRun>, sourceId: string): set<string> {
    set r, a | r in runs && r.outcome.Completed? && r.step.sourceId == sourceId && a in r.step.assetIds :: a
  }

  function AnsweredLineage(runs: seq<StepRun>): set<LineageRef> {
    set r, l | r in runs && r.outcome.Completed? && l in r.outcome.lineage :: l
  }

  function Successes(runs: seq<StepRun>): seq<StepResult> {
    if runs == [] then []
    else
      var last := runs[|runs| - 1];
      Successes(runs[..|runs| - 1])
      + if last.outcome.Completed? then [StepResult(last.step.stepId, last.step.sourceId, last.step.assetIds, last.outcome.lineage)] else []
  }

  function LineageIn(results: seq<StepResult>): seq<LineageRef> {
    if results == [] then [] else LineageIn(results[..|results| - 1]) + results[|results| - 1].lineage
  }

  lemma AnsweredLineageGrows(runs: seq<StepRun>, run: StepRun)
    ensures AnsweredLineage(runs + [run])
      == AnsweredLineage(runs) + if run.outcome.Completed? then set l | l in run.outcome.lineage else {}
  {
  }

  lemma LineageGrows(results: seq<StepResult>, result: StepResult)
    ensures LineageIn(results + [result]) == LineageIn(results) + result.lineage
  {
  }

  lemma {:induction false} LineageOfSuccesses(runs: seq<StepRun>)
    ensures forall l :: l in LineageIn(Successes(runs)) <==> l in AnsweredLineage(runs)
  {
    if runs != [] {
      var n := |runs| - 1;
      LineageOfSuccesses(runs[..n]);
      AnsweredLineageGrows(runs[..n], runs[n]);
      assert runs == runs[..n] + [runs[n]];
      if runs[n].outcome.Completed? {
        LineageGrows(Successes(runs[..n]),
          StepResult(runs[n].step.stepId, runs[n].step.sourceId, runs[n].step.assetIds, runs[n].outcome.lineage));
      } else {
        assert Successes(runs) == Successes(runs[..n]);
      }
    }
  }

  // --- Deduplication ---

  // tuple(x or "" for x in key), in code-point order.
  function OrEmpty(s: Option<string>): string {
    if s.Some? then s.value else ""
  }

  predicate LineageLeq(a: LineageRef, b: LineageRef) {
    if a.sourceId != b.sourceId then StringLeq(a.sourceId, b.sourceId)
    else if a.assetId != b.assetId then StringLeq(a.assetId, b.assetId)
    else if OrEmpty(a.recordId) != OrEmpty(b.recordId) then StringLeq(OrEmpty(a.recordId), OrEmpty(b.recordId))
    else StringLeq(OrEmpty(a.fieldPath), OrEmpty(b.fieldPath))
  }

  lemma LineagePreorder()
    ensures TotalPreorder(LineageLeq)
  {
    StringOrder();
  }

  // First occurrences, in order: a dict keeps the place of a key it already holds.
  function FirstSeen(values: seq<LineageRef>): (r: seq<LineageRef>)
    ensures forall l :: l in r <==> l in values
    ensures forall i, j :: 0 <= i < j < |r| ==> r[i] != r[j]
  {
    if values == [] then []
    else
      var before := FirstSeen(values[..|values| - 1]);
      assert values == values[..|values| - 1] + [values[|values| - 1]];
      if values[|values| - 1] in before then before else before + [values[|values| - 1]]
  }

  /** _unique_lineage(): every reference once, sorted. The key holds all four fields, so equal keys are equal references. */
  method UniqueLineage(values: seq<LineageRef>) returns (r: seq<LineageRef>)
    ensures TotalPreorder(LineageLeq) && r == Sort(FirstSeen(values), LineageLeq)
  {
    var found := [];
    for i := 0 to |values|
      invariant found == FirstSeen(values[..i])
    {
      assert values[..i + 1][..i] == values[..i];
      if values[i] !in found {
        found := found + [values[i]];
      }
    }
    assert values[..|values|] == values;
    LineagePreorder();
    return Sort(found, LineageLeq);
  }

  // Where two references differ, the first part in which they do decides; a missing part counts as the empty text.
  predicate InOrder(a: LineageRef, b: LineageRef) {
    if a.sourceId != b.sourceId then StringLeq(a.sourceId, b.sourceId)
    else if a.assetId != b.assetId then StringLeq(a.assetId, b.assetId)
    else match (a.recordId, b.recordId)
      case (Some(r), Some(q)) => if r == q then FieldsInOrder(a, b) else StringLeq(r, q)
      case (Some(r), None) => r == "" && FieldsInOrder(a, b)
      case (None, Some(q)) => q != "" || FieldsInOrder(a, b)
      case (None, None) => FieldsInOrder(a, b)
  }

  predicate FieldsInOrder(a: LineageRef, b: LineageRef) {
    a.fieldPath.None? || a.fieldPath == Some("") || (b.fieldPath.Some? && StringLeq(a.fieldPath.value, b.fieldPath.value))
  }

  lemma OrderedByParts(a: LineageRef, b: LineageRef)
    ensures LineageLeq(a, b) <==> InOrder(a, b)
  {
    if a.fieldPath.Some? { StringLeqTotal(a.fieldPath.value, a.fieldPath.value); }
  }

  /** Every reference once, in order. */
  lemma UniqueLineageFacts(values: seq<LineageRef>, r: seq<LineageRef>)
    requires TotalPreorder(LineageLeq) && r == Sort(FirstSeen(values), LineageLeq)
    ensures forall l :: l in r <==> l in values
    ensures forall i, j :: 0 <= i < j < |r| ==> r[i] != r[j]
    ensures forall i, j :: 0 <= i < j < |r| ==> InOrder(r[i], r[j])
  {
    hide LineageLeq, InOrder;
    forall i, j | 0 <= i < j < |r| ensures InOrder(r[i], r[j]) { OrderedByParts(r[i], r[j]); }
    var first := FirstSeen(values);
    forall l ensures l in r <==> l in first {
      assert l in multiset(r) <==> l in multiset(first);
    }
    forall i, j | 0 <= i < j < |r| ensures r[i] != r[j] {
      if r[i] == r[j] {
        TwiceIn(r, i, j);
        OnceIn(first, r[i]);
      }
    }
  }

  // --- The coordinator ---

  ghost predicate AllValid(runs: seq<StepRun>) {
    forall r :: r in runs ==> r.Valid()
  }

  ghost predicate FailuresHeld(runs: seq<StepRun>, failures: map<string, seq<string>>) {
    && failures.Keys == FailedSources(runs)
    && forall s :: s in failures ==> Elements(failures[s]) == ErrorsOf(runs, s)
  }

  ghost predicate AnswersHeld(runs: seq<StepRun>, answered: map<string, set<string>>) {
    && answered.Keys == AnsweringSources(runs)
    && forall s :: s in answered ==> answered[s] == AnsweredAssets(runs, s)
  }

  function WithFailure(failures: map<string, seq<string>>, sourceId: string, errorType: string): map<string, seq<string>> {
    failures[sourceId := (if sourceId in failures then failures[sourceId] else []) + [errorType]]
  }

  function WithAnswer(answered: map<string, set<string>>, sourceId: string, assets: seq<string>): map<string, set<string>> {
    answered[sourceId := (if sourceId in answered then answered[sourceId] else {}) + Elements(assets)]
  }

  lemma HoldFailure(runs: seq<StepRun>, run: StepRun, failures: map<string, seq<string>>)
    requires FailuresHeld(runs, failures)
    ensures FailuresHeld(runs + [run],
      if run.outcome.Failed? then WithFailure(failures, run.step.sourceId, run.outcome.errorType) else failures)
  {
    var after := runs + [run];
    if run.outcome.Failed? {
      assert FailedSources(after) == FailedSources(runs) + {run.step.sourceId};
      forall s | s in FailedSources(after)
        ensures Elements(WithFailure(failures, run.step.sourceId, run.outcome.errorType)[s]) == ErrorsOf(after, s)
      {
        assert ErrorsOf(after, s) == ErrorsOf(runs, s) + if s == run.step.sourceId then {run.outcome.errorType} else {};
      }
    } else {
      assert FailedSources(after) == FailedSources(runs);
      forall s | s in failures ensures ErrorsOf(after, s) == ErrorsOf(runs, s) {}
    }
  }

  lemma HoldAnswer(runs: seq<StepRun>, run: StepRun, answered: map<string, set<string>>)
    requires AnswersHeld(runs, answered)
    ensures AnswersHeld(runs + [run],
      if run.outcome.Completed? then WithAnswer(answered, run.step.sourceId, run.step.assetIds) else answered)
  {
  }

  // What the result reports, in terms of what happened.
  ghost predicate CoversTruthfully(runs: seq<StepRun>, coverage: CoverageStatement) {
    && coverage.expected == SourcesOf(runs)
    && ExcludedIds(coverage) == FailedSources(runs)
    && IncludedIds(coverage) == SourcesOf(runs) - FailedSources(runs)
    && (forall c :: c in coverage.included ==> c.isComplete && Elements(c.assetIds) == AnsweredAssets(runs, c.sourceId))
    && (forall e :: e in coverage.excluded ==> e.reasonCode == "source_execution_failed" && e.detail == Commas(SortedStrings(ErrorsOf(runs, e.sourceId))))
  }

  lemma SomeAnswer(runs: seq<StepRun>, sourceId: string)
    requires AllValid(runs) && (forall r :: r in runs ==> !r.outcome.Cancelled?)
    ensures SourcesOf(runs) == AnsweringSources(runs) + FailedSources(runs)
    ensures sourceId in AnsweringSources(runs) ==> AnsweredAssets(runs, sourceId) != {}
    ensures sourceId in FailedSources(runs) ==> ErrorsOf(runs, sourceId) != {} && "" !in ErrorsOf(runs, sourceId)
  {
    if sourceId in AnsweringSources(runs) {
      var r :| r in runs && r.outcome.Completed? && r.step.sourceId == sourceId;
      assert r.Valid() && r.step.assetIds[0] in r.step.assetIds;
      assert r.step.assetIds[0] in AnsweredAssets(runs, sourceId);
    }
    if sourceId in FailedSources(runs) {
      var r :| r in runs && r.outcome.Failed? && r.step.sourceId == sourceId;
      assert r.outcome.errorType in ErrorsOf(runs, sourceId);
    }
  }

  function Inclusions(names: seq<string>, answered: map<string, set<string>>): seq<SourceCoverage>
    requires forall i :: 0 <= i < |names| ==> names[i] in answered
  {
    seq(|names|, i requires 0 <= i < |names| => SourceCoverage(names[i], SortedStrings(answered[names[i]]), true))
  }

  function Exclusions(names: seq<string>, failures: map<string, seq<string>>): seq<CoverageExclusion>
    requires forall i :: 0 <= i < |names| ==> names[i] in failures
  {
    seq(|names|, i requires 0 <= i < |names| =>
      CoverageExclusion(names[i], "source_execution_failed", Commas(SortedStrings(Elements(failures[names[i]])))))
  }

  ghost predicate SomeCancelled(runs: seq<StepRun>) {
    exists run :: run in runs && run.outcome.Cancelled?
  }

  // The results of the steps that succeeded, a statement that is acceptable and true, and the lineage without repeats.
  ghost predicate Reports(runs: seq<StepRun>, result: CoordinationResult) {
    && result.steps == Successes(runs)
    && Acceptable(result.coverage) && CoversTruthfully(runs, result.coverage)
    && TotalPreorder(LineageLeq) && result.lineage == Sort(FirstSeen(LineageIn(result.steps)), LineageLeq)
  }

  /** execute(): the only errors are a mismatched identity and a cancelled step. */
  method Execute(requestId: string, generatedAt: int, runs: seq<StepRun>, identityRequestId: string)
    returns (r: Result<CoordinationResult, CoordinationError>)
    requires requestId != [] && runs != [] && AllValid(runs)
    ensures requestId != identityRequestId ==> r == Err(IdentityMismatch)
    ensures requestId == identityRequestId && SomeCancelled(runs) ==> r == Err(StepCancelled)
    ensures requestId == identityRequestId && !SomeCancelled(runs) ==> r.Ok? && Reports(runs, r.value)
    ensures r.Ok? ==> r.value.requestId == r.value.coverage.requestId == requestId && r.value.coverage.generatedAt == generatedAt
  {
    if requestId != identityRequestId {
      return Err(IdentityMismatch);
    }
    var cancelled, successful, failures, answered := Gather(runs);
    if cancelled {
      return Err(StepCancelled);
    }
    var covered, failed := SortedStrings(answered.Keys - failures.Keys), SortedStrings(failures.Keys);
    var coverage := CoverageStatement(requestId, generatedAt, Inclusions(covered, answered), Exclusions(failed, failures), SourcesOf(runs));
    StatementIsTrue(runs, coverage, answered, failures, covered, failed);
    if !Acceptable(coverage) {
      return Err(InvalidCoverage);
    }
    var lineage := UniqueLineage(LineageIn(successful));
    return Ok(CoordinationResult(requestId, successful, coverage, lineage));
  }

  method Gather(runs: seq<StepRun>)
    returns (cancelled: bool, successful: seq<StepResult>, failures: map<string, seq<string>>, answered: map<string, set<string>>)
    ensures cancelled <==> SomeCancelled(runs)
    ensures !cancelled ==> successful == Successes(runs) && FailuresHeld(runs, failures) && AnswersHeld(runs, answered)
  {
    cancelled, successful, failures, answered := false, [], map[], map[];
    for i := 0 to |runs|
      invariant forall j :: 0 <= j < i ==> !runs[j].outcome.Cancelled?
      invariant successful == Successes(runs[..i])
      invariant FailuresHeld(runs[..i], failures)
      invariant AnswersHeld(runs[..i], answered)
    {
      var run := runs[i];
      assert runs[..i + 1] == runs[..i] + [run];
      HoldFailure(runs[..i], run, failures);
      HoldAnswer(runs[..i], run, answered);
      match run.outcome
      case Cancelled =>
        cancelled := true;
        return;
      case Failed(errorType) => failures := WithFailure(failures, run.step.sourceId, errorType);
      case Completed(lineage) =>
        successful := successful + [StepResult(run.step.stepId, run.step.sourceId, run.step.assetIds, lineage)];
        answered := WithAnswer(answered, run.step.sourceId, run.step.assetIds);
    }
    assert runs[..|runs|] == runs;
  }

  lemma InclusionsAreTrue(runs: seq<StepRun>, names: seq<string>, answered: map<string, set<string>>)
    requires AllValid(runs) && (forall r :: r in runs ==> !r.outcome.Cancelled?) && AnswersHeld(runs, answered)
    requires (forall i :: 0 <= i < |names| ==> names[i] in answered) && Distinct(names)
    ensures var included := Inclusions(names, answered);
      && |included| == |names|
      && (set c | c in included :: c.sourceId) == Elements(names)
      && (forall i :: 0 <= i < |names| ==>
            && included[i].sourceId == names[i] && included[i].isComplete && included[i].assetIds != []
            && Distinct(included[i].assetIds) && Elements(included[i].assetIds) == AnsweredAssets(runs, names[i]))
  {
    var included := Inclusions(names, answered);
    forall i | 0 <= i < |names|
      ensures included[i].assetIds != [] && Elements(included[i].assetIds) == AnsweredAssets(runs, names[i])
    {
      SomeAnswer(runs, names[i]);
      var asset :| asset in AnsweredAssets(runs, names[i]);
      assert asset in included[i].assetIds;
    }
    forall n | n in names ensures n in (set c | c in included :: c.sourceId) {
      var i :| 0 <= i < |names| && names[i] == n;
      assert included[i] in included;
    }
  }

  lemma CommasSaySomething(names: seq<string>)
    requires names != [] && names[0] != []
    ensures Commas(names) != []
  {
  }

  lemma ExclusionsAreTrue(runs: seq<StepRun>, names: seq<string>, failures: map<string, seq<string>>)
    requires AllValid(runs) && (forall r :: r in runs ==> !r.outcome.Cancelled?) && FailuresHeld(runs, failures)
    requires (forall i :: 0 <= i < |names| ==> names[i] in failures) && Distinct(names)
    ensures var excluded := Exclusions(names, failures);
      && |excluded| == |names|
      && (set e | e in excluded :: e.sourceId) == Elements(names)
      && (forall i :: 0 <= i < |names| ==>
            && excluded[i].sourceId == names[i] && excluded[i].reasonCode == "source_execution_failed" && excluded[i].detail != []
            && excluded[i].detail == Commas(SortedStrings(ErrorsOf(runs, names[i]))))
  {
    var excluded := Exclusions(names, failures);
    forall i | 0 <= i < |names| ensures excluded[i].detail != [] {
      SomeAnswer(runs, names[i]);
      var errors := SortedStrings(ErrorsOf(runs, names[i]));
      var error :| error in ErrorsOf(runs, names[i]);
      assert error in errors && errors[0] in errors;
      CommasSaySomething(errors);
    }
    forall n | n in names ensures n in (set e | e in excluded :: e.sourceId) {
      var i :| 0 <= i < |names| && names[i] == n;
      assert excluded[i] in excluded;
    }
  }

  lemma NamedSources(runs: seq<StepRun>)
    requires AllValid(runs) && runs != []
    ensures "" !in SourcesOf(runs) && SourcesOf(runs) != {}
  {
    assert runs[0] in runs && runs[0].step.sourceId in SourcesOf(runs);
  }

  /** The statement can always be built, and says of every expected source exactly what happened to it. */
  lemma StatementIsTrue(runs: seq<StepRun>, coverage: CoverageStatement, answered: map<string, set<string>>,
      failures: map<string, seq<string>>, covered: seq<string>, failed: seq<string>)
    requires AllValid(runs) && runs != [] && (forall r :: r in runs ==> !r.outcome.Cancelled?)
    requires FailuresHeld(runs, failures) && AnswersHeld(runs, answered)
    requires Distinct(covered) && Elements(covered) == answered.Keys - failures.Keys
    requires Distinct(failed) && Elements(failed) == failures.Keys
    requires (forall i :: 0 <= i < |covered| ==> covered[i] in answered) && coverage.included == Inclusions(covered, answered)
    requires (forall i :: 0 <= i < |failed| ==> failed[i] in failures) && coverage.excluded == Exclusions(failed, failures)
    requires coverage.requestId != [] && coverage.expected == SourcesOf(runs)
    ensures Acceptable(coverage) && CoversTruthfully(runs, coverage)
  {
    SomeAnswer(runs, "");
    NamedSources(runs);
    InclusionsAreTrue(runs, covered, answered);
    ExclusionsAreTrue(runs, failed, failures);
    NamedStatement(runs, coverage, covered, failed);
  }

  // A statement whose inclusions and exclusions are listed under these names.
  lemma NamedStatement(runs: seq<StepRun>, coverage: CoverageStatement, covered: seq<string>, failed: seq<string>)
    requires coverage.requestId != [] && coverage.expected == SourcesOf(runs) && "" !in SourcesOf(runs) && SourcesOf(runs) != {}
    requires Distinct(covered) && Elements(covered) == SourcesOf(runs) - FailedSources(runs)
    requires Distinct(failed) && Elements(failed) == FailedSources(runs) <= SourcesOf(runs)
    requires |coverage.included| == |covered| && IncludedIds(coverage) == Elements(covered)
    requires forall i :: 0 <= i < |covered| ==> var c := coverage.included[i];
      c.sourceId == covered[i] && c.isComplete && c.assetIds != [] && Distinct(c.assetIds)
      && Elements(c.assetIds) == AnsweredAssets(runs, covered[i])
    requires |coverage.excluded| == |failed| && ExcludedIds(coverage) == Elements(failed)
    requires forall i :: 0 <= i < |failed| ==> var e := coverage.excluded[i];
      e.sourceId == failed[i] && e.reasonCode == "source_execution_failed" && e.detail != [] && e.detail == Commas(SortedStrings(ErrorsOf(runs, failed[i])))
    ensures Acceptable(coverage) && CoversTruthfully(runs, coverage)
  {
    assert covered != [] || failed != [] by {
      var s :| s in SourcesOf(runs);
      assert s in Elements(covered) + Elements(failed);
    }
    forall i | 0 <= i < |covered| ensures covered[i] != [] { assert covered[i] in Elements(covered); }
    forall i | 0 <= i < |failed| ensures failed[i] != [] { assert failed[i] in Elements(failed); }
  }

  /** A result is complete exactly when every step succeeded, and its lineage is that of the successful steps, each reference once. */
  lemma ResultIsHonest(runs: seq<StepRun>, result: CoordinationResult)
    requires AllValid(runs) && runs != [] && !SomeCancelled(runs) && Reports(runs, result)
    ensures IsComplete(result.coverage) <==> forall r :: r in runs ==> r.outcome.Completed?
    ensures forall l :: l in result.lineage <==> l in AnsweredLineage(runs)
    ensures forall i, j :: 0 <= i < j < |result.lineage| ==> result.lineage[i] != result.lineage[j]
  {
    LineageOfSuccesses(runs);
    UniqueLineageFacts(LineageIn(result.steps), result.lineage);
    CompleteIffNoFailure(runs, result.coverage);
    if r :| r in runs && r.outcome.Failed? { assert r.step.sourceId in FailedSources(runs); }
  }

  lemma CompleteIffNoFailure(runs: seq<StepRun>, coverage: CoverageStatement)
    requires AllValid(runs) && runs != [] && CoversTruthfully(runs, coverage)
    ensures IsComplete(coverage) <==> FailedSources(runs) == {}
  {
    NamedSources(runs);
    if coverage.excluded != [] {
      assert coverage.excluded[0] in coverage.excluded && coverage.excluded[0].sourceId in ExcludedIds(coverage);
    } else {
      assert ExcludedIds(coverage) == {};
      assert coverage.included != [] by {
        var s :| s in SourcesOf(runs);
        assert s in IncludedIds(coverage);
      }
    }
  }

  /** Where the error types hold no comma, the detail of an exclusion names exactly those its source failed with. */
  lemma DetailNamesErrors(runs: seq<StepRun>, coverage: CoverageStatement, e: CoverageExclusion)
    requires AllValid(runs) && runs != [] && !SomeCancelled(runs) && CoversTruthfully(runs, coverage) && e in coverage.excluded
    requires forall r :: r in runs && r.outcome.Failed? ==> ',' !in r.outcome.errorType
    ensures Elements(Split(e.detail)) == ErrorsOf(runs, e.sourceId)
  {
    var errors := ErrorsOf(runs, e.sourceId);
    assert e.sourceId in FailedSources(runs) by { assert e.sourceId in ExcludedIds(coverage); }
    SomeAnswer(runs, e.sourceId);
    var error :| error in errors;
    assert error in SortedStrings(errors);
    CommasSplit(SortedStrings(errors));
  }
}
