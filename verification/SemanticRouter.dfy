/** route() as the loop it is, over the live mapping and freshness registries. */
module SemanticRouter {
  import opened Wrappers
  import opened Ordering
  import opened Governance
  import opened Freshness
  import opened Routing
  import opened SourceRouter

  // What the loop has filed under each target so far.
  ghost predicate FiledSoFar(selected: map<Target, seq<SemanticMappingCandidate>>, won: Winning, concepts: seq<string>) {
    && selected.Keys == TargetsOf(won, concepts)
    && forall t :: t in selected ==> selected[t] == Mappings(won, concepts, {t})
  }

  function Appended(selected: map<Target, seq<SemanticMappingCandidate>>, winner: SemanticMappingCandidate): map<Target, seq<SemanticMappingCandidate>>
  {
    var home := HomeOf(winner);
    selected[home := (if home in selected then selected[home] else []) + [winner]]
  }

  lemma NextMappings(won: Winning, before: seq<string>, conceptId: string, t: Target)
    ensures Mappings(won, before + [conceptId], {t})
      == Mappings(won, before, {t}) + if Goes(won, conceptId, {t}) then [won[conceptId]] else []
  {
  }

  lemma {:induction false} NoMappings(won: Winning, concepts: seq<string>, t: Target)
    requires t !in TargetsOf(won, concepts)
    ensures Mappings(won, concepts, {t}) == []
  {
    if concepts != [] {
      var n := |concepts| - 1;
      assert concepts == concepts[..n] + [concepts[n]];
      NoMappings(won, concepts[..n], t);
      NextMappings(won, concepts[..n], concepts[n], t);
    }
  }

  lemma FileWinner(selected: map<Target, seq<SemanticMappingCandidate>>, won: Winning, before: seq<string>, conceptId: string)
    requires FiledSoFar(selected, won, before) && conceptId in won
    ensures FiledSoFar(Appended(selected, won[conceptId]), won, before + [conceptId])
  {
    var home := HomeOf(won[conceptId]);
    assert TargetsOf(won, before + [conceptId]) == TargetsOf(won, before) + {home};
    if home !in selected { NoMappings(won, before, home); }
    forall t | t in TargetsOf(won, before + [conceptId])
      ensures Appended(selected, won[conceptId])[t] == Mappings(won, before + [conceptId], {t})
    {
      NextMappings(won, before, conceptId, t);
    }
  }

  lemma FileNothing(selected: map<Target, seq<SemanticMappingCandidate>>, won: Winning, before: seq<string>, conceptId: string)
    requires FiledSoFar(selected, won, before) && conceptId !in won
    ensures FiledSoFar(selected, won, before + [conceptId])
  {
  }

  // --- The lists the loop collects ---

  datatype Tally = Tally(
    uncovered: seq<string>, ambiguous: seq<string>, stale: seq<string>, refused: seq<string>, degraded: seq<string>)

  function Seen(found: set<string>, concepts: seq<string>): set<string> {
    set c | c in concepts && c in found
  }

  ghost predicate Tallied(f: Findings, refuse: bool, concepts: seq<string>, t: Tally) {
    && Elements(t.uncovered) == Seen(f.nothing, concepts) && Elements(t.ambiguous) == Seen(f.unclear, concepts)
    && Elements(t.stale) == (if refuse then {} else Seen(f.passedOver, concepts))
    && Elements(t.refused) == (if refuse then Seen(f.passedOver, concepts) else {})
    && Elements(t.degraded) == Seen(f.wonStale, concepts)
  }

  function OneMore(s: seq<string>, conceptId: string, yes: bool): seq<string> {
    if yes then s + [conceptId] else s
  }

  function NextTally(f: Findings, refuse: bool, c: string, t: Tally): Tally {
    Tally(
      OneMore(t.uncovered, c, c in f.nothing), OneMore(t.ambiguous, c, c in f.unclear),
      OneMore(t.stale, c, !refuse && c in f.passedOver), OneMore(t.refused, c, refuse && c in f.passedOver),
      OneMore(t.degraded, c, c in f.wonStale))
  }

  lemma SeenGrows(s: seq<string>, found: set<string>, before: seq<string>, c: string)
    requires Elements(s) == Seen(found, before)
    ensures Elements(OneMore(s, c, c in found)) == Seen(found, before + [c])
  {
    var after := OneMore(s, c, c in found);
    forall x ensures x in Elements(after) <==> x in Seen(found, before + [c]) {
      assert x in Elements(s) <==> x in Seen(found, before);
    }
  }

  lemma TallyGrows(f: Findings, refuse: bool, before: seq<string>, c: string, t: Tally)
    requires Tallied(f, refuse, before, t)
    ensures Tallied(f, refuse, before + [c], NextTally(f, refuse, c, t))
  {
    SeenGrows(t.uncovered, f.nothing, before, c);
    SeenGrows(t.ambiguous, f.unclear, before, c);
    SeenGrows(if refuse then t.refused else t.stale, f.passedOver, before, c);
    SeenGrows(t.degraded, f.wonStale, before, c);
  }

  lemma TallyIsFindings(f: Findings, refuse: bool, concepts: seq<string>, t: Tally)
    requires Tallied(f, refuse, concepts, t) && f.nothing + f.unclear + f.passedOver + f.wonStale <= Elements(concepts)
    ensures Elements(t.uncovered) == f.nothing && Elements(t.ambiguous) == f.unclear && Elements(t.degraded) == f.wonStale
    ensures Elements(t.stale) == (if refuse then {} else f.passedOver)
    ensures Elements(t.refused) == (if refuse then f.passedOver else {})
  {
  }

  lemma NoElements(s: seq<string>)
    ensures Elements(s) == {} <==> s == []
  {
    if s != [] { assert s[0] in Elements(s); }
  }

  // --- What follows the loop ---

  // One route for each target, in order.
  method RoutesFor(k: Knowledge, selected: map<Target, seq<SemanticMappingCandidate>>, ghost won: Winning)
    returns (routes: seq<SelectedRoute>)
    requires FiledSoFar(selected, won, k.request.conceptIds)
    ensures routes == SelectedRoutes(k, won)
  {
    hide RouteTo, Mappings;
    routes := [];
    var targets := SortedTargets(selected.Keys);
    for i := 0 to |targets|
      invariant routes == Routes(k, won, k.request.conceptIds, targets[..i])
    {
      NextRoute(k, won, k.request.conceptIds, targets, i);
      routes := routes + [RouteTo(k, targets[i], selected[targets[i]])];
    }
    assert targets[..|targets|] == targets;
  }

  lemma NextRoute(k: Knowledge, won: Winning, concepts: seq<string>, targets: seq<Target>, i: nat)
    requires i < |targets|
    ensures Routes(k, won, concepts, targets[..i + 1])
      == Routes(k, won, concepts, targets[..i]) + [RouteTo(k, targets[i], Mappings(won, concepts, {targets[i]}))]
  {
  }

  method Conclude(k: Knowledge, selected: map<Target, seq<SemanticMappingCandidate>>, tally: Tally, ghost f: Findings)
    returns (decision: RouteDecision)
    requires FiledSoFar(selected, f.won, k.request.conceptIds)
    requires Tallied(f, k.request.slo.onBreach == Refuse, k.request.conceptIds, tally)
    requires f.nothing + f.unclear + f.passedOver + f.wonStale <= Elements(k.request.conceptIds)
    ensures decision == Concluding(k, f)
  {
    hide Escalation, Refusal, Selection, SelectedRoutes, Mappings, Seen, Tallied, Elements;
    assert |selected| == |selected.Keys|;
    TallyIsFindings(f, k.request.slo.onBreach == Refuse, k.request.conceptIds, tally);
    NoElements(tally.ambiguous);
    NoElements(tally.uncovered);
    if tally.ambiguous != [] {
      return Escalation(k.request, Elements(tally.ambiguous), Elements(tally.uncovered));
    }
    if tally.uncovered != [] || |selected| > k.request.maxSources {
      return Refusal(k.request, Elements(tally.uncovered), Elements(tally.stale), Elements(tally.refused),
                     |selected| > k.request.maxSources);
    }
    var routes := RoutesFor(k, selected, f.won);
    return Selection(k.request, routes, Elements(tally.degraded));
  }

  // --- One concept ---

  ghost predicate SomeStale(k: Knowledge, conceptId: string, ids: seq<string>) {
    exists id :: id in ids && Qualifies(k, conceptId, id) && !AssessmentOf(k, id).isFresh
  }

  ghost predicate DegradedAmong(k: Knowledge, conceptId: string, ids: seq<string>, degraded: set<string>) {
    forall id :: id in degraded <==> id in ids && Eligible(k, conceptId, id) && !AssessmentOf(k, id).isFresh
  }

  lemma NextCandidate(k: Knowledge, conceptId: string, ids: seq<string>, i: nat, degraded: set<string>)
    requires i < |ids| && DegradedAmong(k, conceptId, ids[..i], degraded)
    ensures EligibleAmong(k, conceptId, ids[..i + 1])
      == EligibleAmong(k, conceptId, ids[..i]) + if Eligible(k, conceptId, ids[i]) then [ids[i]] else []
    ensures SomeStale(k, conceptId, ids[..i + 1]) <==>
      SomeStale(k, conceptId, ids[..i]) || (Qualifies(k, conceptId, ids[i]) && !AssessmentOf(k, ids[i]).isFresh)
    ensures DegradedAmong(k, conceptId, ids[..i + 1],
      if Eligible(k, conceptId, ids[i]) && !AssessmentOf(k, ids[i]).isFresh then degraded + {ids[i]} else degraded)
  {
    assert ids[..i + 1] == ids[..i] + [ids[i]];
    assert ids[..i + 1][..i] == ids[..i];
  }

  lemma NoCandidates(k: Knowledge, conceptId: string)
    ensures EligibleAmong(k, conceptId, []) == [] && DegradedAmong(k, conceptId, [], {}) && !SomeStale(k, conceptId, [])
  {
  }

  lemma AllCandidates(k: Knowledge, conceptId: string, degraded: set<string>)
    requires DegradedAmong(k, conceptId, ApprovedFor(k.registry, conceptId), degraded)
    ensures SomeStale(k, conceptId, ApprovedFor(k.registry, conceptId)) <==> HasStale(k, conceptId)
    ensures forall id :: id in degraded <==> Eligible(k, conceptId, id) && !AssessmentOf(k, id).isFresh
  {
  }

  method Sift(k: Knowledge, conceptId: string, ids: seq<string>)
    returns (eligible: seq<string>, degraded: set<string>, passedOver: bool)
    requires forall i :: 0 <= i < |ids| ==> ApprovedId(k.registry, ids[i], false) && k.registry.candidates[ids[i]].conceptId == conceptId
    ensures eligible == EligibleAmong(k, conceptId, ids)
    ensures DegradedAmong(k, conceptId, ids, degraded)
    ensures passedOver == (k.request.slo.onBreach != Degrade && SomeStale(k, conceptId, ids))
  {
    hide EligibleAmong, DegradedAmong, SomeStale;
    NoCandidates(k, conceptId);
    eligible, degraded, passedOver := [], {}, false;
    for i := 0 to |ids|
      invariant eligible == EligibleAmong(k, conceptId, ids[..i])
      invariant DegradedAmong(k, conceptId, ids[..i], degraded)
      invariant passedOver == (k.request.slo.onBreach != Degrade && SomeStale(k, conceptId, ids[..i]))
    {
      NextCandidate(k, conceptId, ids, i, degraded);
      var candidate := k.registry.candidates[ids[i]];
      if candidate.confidence >= k.request.minimumConfidence {
        var assessment := Assess(k.observations, (candidate.sourceId, candidate.assetId), k.request.slo, k.at);
        if assessment.isFresh {
          eligible := eligible + [ids[i]];
        } else if assessment.action == Some(Degrade) {
          eligible := eligible + [ids[i]];
          degraded := degraded + {ids[i]};
        } else {
          passedOver := true;
        }
      }
    }
    assert ids[..|ids|] == ids;
  }

  // The eligible mappings of one concept, best first; which of them are degraded; whether any was passed over as stale.
  method Screen(k: Knowledge, conceptId: string) returns (ranked: seq<(real, string)>, degraded: set<string>, passedOver: bool)
    ensures ranked == RankedEligible(k, conceptId)
    ensures forall id :: id in degraded <==> Eligible(k, conceptId, id) && !AssessmentOf(k, id).isFresh
    ensures passedOver == (k.request.slo.onBreach != Degrade && HasStale(k, conceptId))
  {
    var ids := ApprovedFor(k.registry, conceptId);
    assert forall i :: 0 <= i < |ids| ==> ids[i] in ids;
    var eligible;
    eligible, degraded, passedOver := Sift(k, conceptId, ids);
    AllCandidates(k, conceptId, degraded);
    ranked := SortRanked(k, conceptId, eligible);
  }

  method SortRanked(k: Knowledge, conceptId: string, eligible: seq<string>) returns (ranked: seq<(real, string)>)
    requires eligible == EligibleIds(k, conceptId)
    ensures ranked == RankedEligible(k, conceptId)
  {
    RankOrder();
    ranked := Sort(Ranked(k, eligible), RankLeq);
  }

  lemma FindingsOfRequest(k: Knowledge)
    ensures var f := FindingsOf(k);
      f.nothing + f.unclear + f.passedOver + f.wonStale <= Elements(k.request.conceptIds)
    ensures DecisionOf(k) == Concluding(k, FindingsOf(k))
  {
  }

  lemma NothingSeen(f: Findings, refuse: bool)
    ensures FiledSoFar(map[], f.won, []) && Tallied(f, refuse, [], Tally([], [], [], [], []))
  {
  }

  class SemanticSourceRouter {
    const mappings: SemanticMappingRegistry
    const freshness: FreshnessRegistry

    constructor (mappings: SemanticMappingRegistry, freshness: FreshnessRegistry)
      ensures this.mappings == mappings && this.freshness == freshness
    {
      this.mappings, this.freshness := mappings, freshness;
    }

    function Knows(request: RouteRequest, at: int): (k: Knowledge)
      reads mappings, freshness
      ensures k.request == request
    {
      Knowledge(mappings.Contents(), freshness.observations, request, at)
    }

    // The body of the loop for one concept.
    method RouteConcept(request: RouteRequest, at: int, conceptId: string, ghost before: seq<string>,
        selected0: map<Target, seq<SemanticMappingCandidate>>, tally0: Tally)
      returns (selected: map<Target, seq<SemanticMappingCandidate>>, tally: Tally)
      requires conceptId in request.conceptIds
      requires FiledSoFar(selected0, FindingsOf(Knows(request, at)).won, before)
      requires Tallied(FindingsOf(Knows(request, at)), request.slo.onBreach == Refuse, before, tally0)
      ensures FiledSoFar(selected, FindingsOf(Knows(request, at)).won, before + [conceptId])
      ensures Tallied(FindingsOf(Knows(request, at)), request.slo.onBreach == Refuse, before + [conceptId], tally)
    {
      ghost var k := Knows(request, at);
      ghost var f := FindingsOf(k);
      hide HasStale, Mappings, Seen;
      selected, tally := selected0, tally0;
      var ranked, degraded, passedOver := Screen(Knows(request, at), conceptId);
      TallyGrows(f, request.slo.onBreach == Refuse, before, conceptId, tally0);
      assert ChoiceOf(k, conceptId) == TopTwo(k, ranked);
      if passedOver {
        if request.slo.onBreach == Refuse {
          tally := tally.(refused := tally.refused + [conceptId]);
        } else {
          tally := tally.(stale := tally.stale + [conceptId]);
        }
      }
      if ranked == [] {
        tally := tally.(uncovered := tally.uncovered + [conceptId]);
        FileNothing(selected0, f.won, before, conceptId);
      } else if |ranked| > 1 && ranked[0].0 - ranked[1].0 <= request.ambiguityDelta {
        tally := tally.(ambiguous := tally.ambiguous + [conceptId]);
        FileNothing(selected0, f.won, before, conceptId);
      } else {
        WinnerIsEligible(k, conceptId);
        var winner := mappings.candidates[ranked[0].1];
        assert f.won[conceptId] == winner;
        if ranked[0].1 in degraded {
          tally := tally.(degraded := tally.degraded + [conceptId]);
        }
        selected := Appended(selected, winner);
        FileWinner(selected0, f.won, before, conceptId);
      }
      assert tally == NextTally(f, request.slo.onBreach == Refuse, conceptId, tally0);
    }

    /** route(): decides as DecisionOf says, from what the two registries hold. */
    method Route(request: RouteRequest, at: int) returns (decision: RouteDecision)
      ensures decision == DecisionOf(Knows(request, at))
    {
      hide *;
      ghost var f := FindingsOf(Knows(request, at));
      FindingsOfRequest(Knows(request, at));
      NothingSeen(f, request.slo.onBreach == Refuse);
      var selected: map<Target, seq<SemanticMappingCandidate>> := map[];
      var tally := Tally([], [], [], [], []);
      for i := 0 to |request.conceptIds|
        invariant FiledSoFar(selected, f.won, request.conceptIds[..i])
        invariant Tallied(f, request.slo.onBreach == Refuse, request.conceptIds[..i], tally)
      {
        assert request.conceptIds[..i + 1] == request.conceptIds[..i] + [request.conceptIds[i]];
        assert request.conceptIds[i] in request.conceptIds;
        selected, tally := RouteConcept(request, at, request.conceptIds[i], request.conceptIds[..i], selected, tally);
      }
      assert request.conceptIds[..|request.conceptIds|] == request.conceptIds;
      decision := Conclude(Knows(request, at), selected, tally, f);
    }
  }
}
