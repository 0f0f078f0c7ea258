/** What a routing decision reports: the concepts it could not route and why, and what each selected route adds up to. */
module RouteReports {
  import opened Wrappers
  import opened Ordering
  import opened Models
  import opened Governance
  import opened Freshness
  import opened Routing
  import opened SourceRouter
  import opened RouteFreshness

  // --- What was not routed ---

  /** Every decision answers its request, and only a selection has routes. */
  lemma AnswersItsRequest(k: Knowledge)
    ensures DecisionOf(k).requestId == k.request.requestId
    ensures DecisionOf(k).status != Selected ==> DecisionOf(k).routes == []
    ensures DecisionOf(k).status == Selected ==> DecisionOf(k).uncovered == []
  {
    hide FindingsOf, SelectedRoutes, Reasons;
  }

  lemma FindingsAre(k: Knowledge, conceptId: string)
    requires k.request.ambiguityDelta >= 0.0 && conceptId in k.request.conceptIds
    ensures conceptId in FindingsOf(k).nothing <==> !Covered(k, conceptId)
    ensures conceptId in FindingsOf(k).unclear <==> Ambiguous(k, conceptId)
  {
    hide ChoiceOf, Covered, Wins, HasStale, Winners;
    ChoiceDecides(k, conceptId);
    DecidedApart(k, conceptId, ChoiceOf(k, conceptId));
  }

  lemma DecidedApart(k: Knowledge, conceptId: string, choice: Choice)
    requires Decides(k, conceptId, choice)
    ensures choice.Nothing? <==> !Covered(k, conceptId)
    ensures choice.Unclear? <==> Ambiguous(k, conceptId)
  {
  }

  lemma FindingsAreRequested(k: Knowledge)
    ensures forall c :: c in FindingsOf(k).nothing || c in FindingsOf(k).unclear ==> c in k.request.conceptIds
  {
  }

  lemma EscalationIs(k: Knowledge)
    requires DecisionOf(k).status == EscalationRequired
    ensures DecisionOf(k) == Escalation(k.request, FindingsOf(k).unclear, FindingsOf(k).nothing)
  {
    hide FindingsOf, SelectedRoutes;
  }

  /** An escalation lists the concepts that no mapping covers or that are ambiguous, and gives the ambiguous ones as its reasons. */
  lemma EscalationReports(k: Knowledge, conceptId: string)
    requires k.request.ambiguityDelta >= 0.0 && DecisionOf(k).status == EscalationRequired
    ensures conceptId in DecisionOf(k).uncovered <==>
      conceptId in k.request.conceptIds && (!Covered(k, conceptId) || Ambiguous(k, conceptId))
    ensures forall reason :: reason in DecisionOf(k).reasons ==> reason.About? && reason.tag == AmbiguousMapping
    ensures About(AmbiguousMapping, conceptId) in DecisionOf(k).reasons <==> conceptId in k.request.conceptIds && Ambiguous(k, conceptId)
    ensures SortedBy(DecisionOf(k).uncovered, StringLeq)
  {
    hide DecisionOf, FindingsOf, Covered, Ambiguous, Reasons;
    EscalationIs(k);
    FindingsAreRequested(k);
    if conceptId in k.request.conceptIds { FindingsAre(k, conceptId); }
    forall reason { ReasonsAre(AmbiguousMapping, FindingsOf(k).unclear, reason); }
  }

  lemma RefusalIs(k: Knowledge) returns (stale: set<string>, refused: set<string>)
    requires DecisionOf(k).status == RouteRefused
    ensures DecisionOf(k) == Refusal(k.request, FindingsOf(k).nothing, stale, refused,
      |TargetsOf(FindingsOf(k).won, k.request.conceptIds)| > k.request.maxSources)
  {
    hide FindingsOf, SelectedRoutes, TargetsOf;
    var f, isRefused := FindingsOf(k), k.request.slo.onBreach == Refuse;
    stale, refused := if isRefused then {} else f.passedOver, if isRefused then f.passedOver else {};
  }

  /** A refusal lists the concepts that no mapping covers, and gives them and a broken bound on sources as its reasons. */
  lemma RefusalReports(k: Knowledge, conceptId: string)
    requires k.request.ambiguityDelta >= 0.0 && DecisionOf(k).status == RouteRefused
    ensures var listed := conceptId in k.request.conceptIds && !Covered(k, conceptId);
      && (conceptId in DecisionOf(k).uncovered <==> listed)
      && (About(UncoveredConcept, conceptId) in DecisionOf(k).reasons <==> listed)
    ensures SourceBoundExceeded in DecisionOf(k).reasons <==> |WinningTargets(k)| > k.request.maxSources
    ensures SortedBy(DecisionOf(k).uncovered, StringLeq)
  {
    hide DecisionOf, FindingsOf, Covered, Reasons, WinningTargets, TargetsOf, TheWinners;
    var stale, refused := RefusalIs(k);
    FindingsAreRequested(k);
    if conceptId in k.request.conceptIds { FindingsAre(k, conceptId); }
    WinnersAreTheWinning(k);
    TargetsAreTheWinning(k, Winners(k, k.request.conceptIds));
    WonAreWinners(k);
    RefusalReasons(k.request, FindingsOf(k).nothing, stale, refused,
      |TargetsOf(FindingsOf(k).won, k.request.conceptIds)| > k.request.maxSources, conceptId);
  }

  lemma WonAreWinners(k: Knowledge)
    ensures FindingsOf(k).won == Winners(k, k.request.conceptIds)
  {
  }

  // --- What a route adds up to ---

  ghost predicate AllKnown(k: Knowledge, ids: seq<string>) {
    forall i :: 0 <= i < |ids| ==> ids[i] in k.registry.candidates
  }

  ghost function Confidences(k: Knowledge, ids: seq<string>): real
    requires AllKnown(k, ids)
  {
    if ids == [] then 0.0
    else Confidences(k, ids[..|ids| - 1]) + k.registry.candidates[ids[|ids| - 1]].confidence
  }

  lemma {:induction false} TakeOut(k: Knowledge, ids: seq<string>, j: nat)
    requires AllKnown(k, ids) && j < |ids|
    ensures AllKnown(k, ids[..j] + ids[j + 1..])
    ensures Confidences(k, ids) == Confidences(k, ids[..j] + ids[j + 1..]) + k.registry.candidates[ids[j]].confidence
  {
    var n := |ids| - 1;
    if j == n {
      assert ids[..j] + ids[j + 1..] == ids[..n];
    } else {
      TakeOut(k, ids[..n], j);
      var rest := ids[..j] + ids[j + 1..];
      assert rest[..|rest| - 1] == ids[..n][..j] + ids[..n][j + 1..] && rest[|rest| - 1] == ids[n];
    }
  }

  lemma {:induction false} SumIgnoresOrder(k: Knowledge, a: seq<string>, b: seq<string>)
    requires AllKnown(k, a) && AllKnown(k, b) && multiset(a) == multiset(b)
    ensures Confidences(k, a) == Confidences(k, b)
    decreases |a|
  {
    assert |a| == |multiset(a)| == |multiset(b)| == |b|;
    if a != [] {
      var n := |a| - 1;
      assert a == a[..n] + [a[n]];
      assert a[n] in multiset(b);
      var j :| 0 <= j < |b| && b[j] == a[n];
      TakeOut(k, b, j);
      assert b == b[..j] + [b[j]] + b[j + 1..];
      assert multiset(b[..j] + b[j + 1..]) == multiset(b) - multiset{b[j]};
      SumIgnoresOrder(k, a[..n], b[..j] + b[j + 1..]);
    }
  }

  // The mappings are registered under their own ids.
  ghost predicate Registered(k: Knowledge, mappings: seq<SemanticMappingCandidate>) {
    forall i :: 0 <= i < |mappings| ==>
      mappings[i].mappingId in k.registry.candidates && k.registry.candidates[mappings[i].mappingId] == mappings[i]
  }

  lemma {:induction false} TotalIsSum(k: Knowledge, mappings: seq<SemanticMappingCandidate>)
    requires Registered(k, mappings)
    ensures AllKnown(k, IdsOf(mappings)) && Total(mappings) == Confidences(k, IdsOf(mappings))
  {
    if mappings != [] {
      var n := |mappings| - 1;
      TotalIsSum(k, mappings[..n]);
      assert IdsOf(mappings)[..n] == IdsOf(mappings[..n]);
    }
  }

  lemma {:induction false} LineageIsTheirs(mappings: seq<SemanticMappingCandidate>, l: LineageRef)
    ensures l in LineageOf(mappings) <==> exists i :: 0 <= i < |mappings| && l in mappings[i].lineage
  {
    if mappings != [] {
      var n := |mappings| - 1;
      LineageIsTheirs(mappings[..n], l);
      if i :| 0 <= i < |mappings[..n]| && l in mappings[..n][i].lineage { assert l in mappings[i].lineage; }
      if i :| 0 <= i < n && l in mappings[i].lineage { assert l in mappings[..n][i].lineage; }
    }
  }

  lemma SumsOver(k: Knowledge, mappings: seq<SemanticMappingCandidate>, sorted: seq<string>)
    requires Registered(k, mappings) && multiset(sorted) == multiset(IdsOf(mappings))
    ensures AllKnown(k, sorted) && |sorted| == |mappings| && Confidences(k, sorted) == Total(mappings)
  {
    var ids := IdsOf(mappings);
    TotalIsSum(k, mappings);
    SameElements(sorted, ids);
    assert |sorted| == |multiset(sorted)| == |multiset(ids)| == |ids|;
    forall i | 0 <= i < |sorted| ensures sorted[i] in k.registry.candidates {
      assert sorted[i] in ids;
      var j :| 0 <= j < |ids| && ids[j] == sorted[i];
    }
    SumIgnoresOrder(k, sorted, ids);
  }

  lemma LineageOver(k: Knowledge, mappings: seq<SemanticMappingCandidate>, sorted: seq<string>, l: LineageRef)
    requires Registered(k, mappings) && AllKnown(k, sorted) && multiset(sorted) == multiset(IdsOf(mappings))
    ensures l in LineageOf(mappings) <==> exists i :: 0 <= i < |sorted| && l in k.registry.candidates[sorted[i]].lineage
  {
    hide LineageOf;
    var ids := IdsOf(mappings);
    SameElements(sorted, ids);
    LineageIsTheirs(mappings, l);
    if i :| 0 <= i < |mappings| && l in mappings[i].lineage {
      assert ids[i] in sorted;
      var j :| 0 <= j < |sorted| && sorted[j] == ids[i];
    }
    if i :| 0 <= i < |sorted| && l in k.registry.candidates[sorted[i]].lineage {
      assert sorted[i] in ids;
      var j :| 0 <= j < |ids| && ids[j] == sorted[i];
      assert l in mappings[j].lineage;
    }
  }

  // A route's mapping ids, score and lineage are those of its mappings.
  lemma RouteFields(k: Knowledge, target: Target, mappings: seq<SemanticMappingCandidate>)
    ensures var route := RouteTo(k, target, mappings);
      multiset(route.mappingIds) == multiset(IdsOf(mappings)) && route.score == Score(mappings) && route.lineage == LineageOf(mappings)
  {
    hide Assess, Score, LineageOf, IdsOf, ConceptsOf;
    StringOrder();
  }

  lemma ScoreIsMean(mappings: seq<SemanticMappingCandidate>)
    requires mappings != []
    ensures Score(mappings) * |mappings| as real == Total(mappings)
  {
  }

  lemma WinnersAreRegistered(k: Knowledge, target: Target)
    requires forall id :: id in k.registry.candidates ==> k.registry.candidates[id].mappingId == id
    ensures Registered(k, Mappings(FindingsOf(k).won, k.request.conceptIds, {target}))
  {
    hide ChoiceOf, HasStale, IsStale;
    WonAreWinners(k);
    var won := Winners(k, k.request.conceptIds);
    forall c | c in won ensures won[c].mappingId in k.registry.candidates && k.registry.candidates[won[c].mappingId] == won[c] {
      WinnerIsEligible(k, c);
    }
  }

  // The score is the mean confidence of the mappings, and the lineage is theirs.
  ghost predicate AddsUp(k: Knowledge, route: SelectedRoute) {
    && AllKnown(k, route.mappingIds)
    && route.score * |route.mappingIds| as real == Confidences(k, route.mappingIds)
    && forall l :: l in route.lineage <==>
         exists j :: 0 <= j < |route.mappingIds| && l in k.registry.candidates[route.mappingIds[j]].lineage
  }

  lemma RouteToAddsUp(k: Knowledge, target: Target, mappings: seq<SemanticMappingCandidate>)
    requires Registered(k, mappings) && mappings != []
    ensures AddsUp(k, RouteTo(k, target, mappings))
  {
    hide RouteTo, Confidences, Total, Score, LineageOf, IdsOf, AllKnown, Registered;
    var route := RouteTo(k, target, mappings);
    RouteFields(k, target, mappings);
    SumsOver(k, mappings, route.mappingIds);
    ScoreIsMean(mappings);
    KnownIds(k, route.mappingIds);
    forall l { LineageOver(k, mappings, route.mappingIds, l); }
  }

  lemma KnownIds(k: Knowledge, ids: seq<string>)
    requires AllKnown(k, ids)
    ensures forall i :: 0 <= i < |ids| ==> ids[i] in k.registry.candidates
  {
  }

  /** A selected route's score is the mean confidence of its mappings, and its lineage is theirs. */
  lemma RouteAddsUp(k: Knowledge, i: nat)
    requires forall id :: id in k.registry.candidates ==> k.registry.candidates[id].mappingId == id
    requires k.request.ambiguityDelta >= 0.0 && DecisionOf(k).status == Selected && i < |DecisionOf(k).routes|
    ensures AddsUp(k, DecisionOf(k).routes[i])
  {
    hide DecisionOf, FindingsOf, RouteTo, Mappings, AddsUp, Registered, TargetsOf;
    SelectedFindings(k);
    var won := FindingsOf(k).won;
    var targets := SortedTargets(TargetsOf(won, k.request.conceptIds));
    TargetHasMapping(won, k.request.conceptIds, targets[i]);
    WinnersAreRegistered(k, targets[i]);
    RouteToAddsUp(k, targets[i], Mappings(won, k.request.conceptIds, {targets[i]}));
  }
}
