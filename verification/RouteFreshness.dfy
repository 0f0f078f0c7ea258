/** What a routing decision says of freshness, in terms of the times that were recorded. */
module RouteFreshness {
  import opened Wrappers
  import opened Ordering
  import opened Governance
  import opened Freshness
  import opened Routing
  import opened SourceRouter

  // The asset was observed, and its last source event lies in the window that ends now.
  predicate InWindow(k: Knowledge, target: Target) {
    target in k.observations && 0 <= k.at - k.observations[target].sourceEventTime <= k.request.slo.maxAge
  }

  // Approved by a review, never quarantined, of this concept and confident enough.
  predicate Suitable(k: Knowledge, conceptId: string, id: string) {
    && id in k.registry.candidates && id in k.registry.reviews && k.registry.reviews[id].approve && id !in k.registry.drift
    && k.registry.candidates[id].conceptId == conceptId && k.registry.candidates[id].confidence >= k.request.minimumConfidence
  }

  function HomeTarget(k: Knowledge, id: string): Target
    requires id in k.registry.candidates
  {
    (k.registry.candidates[id].sourceId, k.registry.candidates[id].assetId)
  }

  /** A mapping is eligible exactly if it is suitable and its asset is in the window or the objective degrades. */
  lemma EligibleExactly(k: Knowledge, conceptId: string, id: string)
    ensures Eligible(k, conceptId, id) <==>
      Suitable(k, conceptId, id) && (InWindow(k, HomeTarget(k, id)) || k.request.slo.onBreach == Degrade)
  {
  }

  lemma StaleExactly(k: Knowledge, target: Target)
    ensures IsStale(k, target) <==> !InWindow(k, target)
  {
  }

  // A suitable mapping of the concept lies outside the window.
  ghost predicate SomeOutside(k: Knowledge, conceptId: string) {
    exists id :: Suitable(k, conceptId, id) && !InWindow(k, HomeTarget(k, id))
  }

  lemma HasStaleExactly(k: Knowledge, conceptId: string)
    ensures HasStale(k, conceptId) <==> SomeOutside(k, conceptId)
  {
    if HasStale(k, conceptId) {
      var id :| id in k.registry.candidates && Qualifies(k, conceptId, id) && !AssessmentOf(k, id).isFresh;
      assert Suitable(k, conceptId, id) && !InWindow(k, HomeTarget(k, id));
    }
    if SomeOutside(k, conceptId) {
      var id :| Suitable(k, conceptId, id) && !InWindow(k, HomeTarget(k, id));
      assert Qualifies(k, conceptId, id) && !AssessmentOf(k, id).isFresh;
    }
  }

  lemma ReasonsAre(tag: Tag, concepts: set<string>, reason: Reason)
    ensures reason in Reasons(tag, concepts) <==> reason.About? && reason.tag == tag && reason.conceptId in concepts
  {
    var sorted := SortedStrings(concepts);
    if reason.About? && reason.tag == tag && reason.conceptId in concepts {
      var i :| 0 <= i < |sorted| && sorted[i] == reason.conceptId;
      assert Reasons(tag, concepts)[i] == reason;
    }
  }

  // --- Selection ---

  lemma SelectedFindings(k: Knowledge)
    requires DecisionOf(k).status == Selected
    ensures DecisionOf(k) == Selection(k.request, SelectedRoutes(k, FindingsOf(k).won), FindingsOf(k).wonStale)
  {
  }

  lemma WinnerHome(k: Knowledge, conceptId: string, id: string, target: Target)
    requires k.request.ambiguityDelta >= 0.0 && conceptId in k.request.conceptIds
    requires Wins(k, conceptId, id) && HomeTarget(k, id) == target
    ensures conceptId in FindingsOf(k).won && HomeOf(FindingsOf(k).won[conceptId]) == target
  {
    WinnersAreTheWinning(k);
    assert IsWinner(k, conceptId, Winners(k, k.request.conceptIds)[conceptId]);
  }

  // A concept of a sound route has a winner at the route's asset.
  lemma RouteWinner(k: Knowledge, route: SelectedRoute, conceptId: string) returns (id: string)
    requires Sound(k, route) && conceptId in route.conceptIds
    ensures Wins(k, conceptId, id) && Eligible(k, conceptId, id) && HomeTarget(k, id) == (route.sourceId, route.assetId)
  {
    hide Qualifies, AssessmentOf, SortedBy;
    id :| id in route.mappingIds && Wins(k, conceptId, id);
  }

  /** Every selected route leads to an asset in the window, or the objective degrades. */
  lemma SelectedIsFresh(k: Knowledge, i: nat)
    requires forall id :: id in k.registry.candidates ==> k.registry.candidates[id].mappingId == id
    requires k.request.ambiguityDelta >= 0.0 && DecisionOf(k).status == Selected && i < |DecisionOf(k).routes|
    ensures var route := DecisionOf(k).routes[i]; InWindow(k, (route.sourceId, route.assetId)) || k.request.slo.onBreach == Degrade
  {
    hide DecisionOf, Wins, Eligible, Ascending;
    SelectedRoutesAreSound(k);
    var route := DecisionOf(k).routes[i];
    var id := RouteWinner(k, route, route.conceptIds[0]);
    EligibleExactly(k, route.conceptIds[0], id);
  }

  lemma RoutedIsRequested(routes: seq<SelectedRoute>, i: nat, conceptId: string, concepts: seq<string>)
    requires i < |routes| && conceptId in routes[i].conceptIds && Routed(routes) == multiset(concepts)
    ensures conceptId in concepts
  {
    RoutedHolds(routes, i, conceptId);
    assert conceptId in multiset(concepts);
  }

  lemma {:induction false} RoutedHolds(routes: seq<SelectedRoute>, i: nat, conceptId: string)
    requires i < |routes| && conceptId in routes[i].conceptIds
    ensures conceptId in Routed(routes)
  {
    var n := |routes| - 1;
    if i < n { RoutedHolds(routes[..n], i, conceptId); } else { assert conceptId in multiset(routes[n].conceptIds); }
  }

  /** A concept of a selected route is reported as degraded exactly if the route's asset lies outside the window. */
  lemma DegradedExactly(k: Knowledge, i: nat, conceptId: string)
    requires forall id :: id in k.registry.candidates ==> k.registry.candidates[id].mappingId == id
    requires k.request.ambiguityDelta >= 0.0 && DecisionOf(k).status == Selected && i < |DecisionOf(k).routes|
    requires conceptId in DecisionOf(k).routes[i].conceptIds
    ensures var route := DecisionOf(k).routes[i];
      About(FreshnessDegraded, conceptId) in DecisionOf(k).reasons <==> !InWindow(k, (route.sourceId, route.assetId))
  {
    hide DecisionOf, FindingsOf, Wins, Eligible, Reasons, SelectedRoutes, Sound, Ascending, IsStale, InWindow, Routed;
    SelectedRoutesAreSound(k);
    SelectionCoversEachConceptOnce(k);
    var route := DecisionOf(k).routes[i];
    var target := (route.sourceId, route.assetId);
    RoutedIsRequested(DecisionOf(k).routes, i, conceptId, k.request.conceptIds);
    var id := RouteWinner(k, route, conceptId);
    SelectedFindings(k);
    WinnerHome(k, conceptId, id, target);
    WonStale(k, conceptId);
    StaleExactly(k, target);
    ReasonsAre(FreshnessDegraded, FindingsOf(k).wonStale, About(FreshnessDegraded, conceptId));
  }

  lemma WonStale(k: Knowledge, conceptId: string)
    requires conceptId in FindingsOf(k).won
    ensures conceptId in FindingsOf(k).wonStale <==> IsStale(k, HomeOf(FindingsOf(k).won[conceptId]))
  {
  }

  // --- Refusal ---

  /**
   A refusal names a requested concept as stale, or as refused for its freshness, exactly if the objective excludes or
   refuses and a suitable mapping of it lies outside the window.
   */
  lemma PassedOverExactly(k: Knowledge, conceptId: string)
    requires DecisionOf(k).status == RouteRefused && conceptId in k.request.conceptIds
    ensures About(StaleMapping, conceptId) in DecisionOf(k).reasons <==> k.request.slo.onBreach == Exclude && SomeOutside(k, conceptId)
    ensures About(FreshnessRefused, conceptId) in DecisionOf(k).reasons <==> k.request.slo.onBreach == Refuse && SomeOutside(k, conceptId)
  {
    hide Reasons, HasStale, SomeOutside, ChoiceOf, Winners;
    var f := FindingsOf(k);
    HasStaleExactly(k, conceptId);
    var refused := k.request.slo.onBreach == Refuse;
    var tooMany := |TargetsOf(f.won, k.request.conceptIds)| > k.request.maxSources;
    assert DecisionOf(k) == Refusal(k.request, f.nothing, if refused then {} else f.passedOver, if refused then f.passedOver else {}, tooMany);
    RefusalReasons(k.request, f.nothing, if refused then {} else f.passedOver, if refused then f.passedOver else {}, tooMany, conceptId);
  }

  lemma RefusalReasons(request: RouteRequest, uncovered: set<string>, stale: set<string>, refused: set<string>, tooMany: bool, conceptId: string)
    ensures var d := Refusal(request, uncovered, stale, refused, tooMany);
      && (About(UncoveredConcept, conceptId) in d.reasons <==> conceptId in uncovered)
      && (About(StaleMapping, conceptId) in d.reasons <==> conceptId in stale)
      && (About(FreshnessRefused, conceptId) in d.reasons <==> conceptId in refused)
      && (SourceBoundExceeded in d.reasons <==> tooMany)
  {
    hide Reasons;
    RefusalReason(uncovered, stale, refused, About(UncoveredConcept, conceptId));
    RefusalReason(uncovered, stale, refused, About(StaleMapping, conceptId));
    RefusalReason(uncovered, stale, refused, About(FreshnessRefused, conceptId));
    RefusalReason(uncovered, stale, refused, SourceBoundExceeded);
  }

  lemma RefusalReason(uncovered: set<string>, stale: set<string>, refused: set<string>, reason: Reason)
    ensures reason in Reasons(UncoveredConcept, uncovered) + Reasons(StaleMapping, stale) + Reasons(FreshnessRefused, refused) <==>
      reason.About? && match reason.tag
        case UncoveredConcept => reason.conceptId in uncovered
        case StaleMapping => reason.conceptId in stale
        case FreshnessRefused => reason.conceptId in refused
        case _ => false
  {
    hide Reasons;
    ReasonsAre(UncoveredConcept, uncovered, reason);
    ReasonsAre(StaleMapping, stale, reason);
    ReasonsAre(FreshnessRefused, refused, reason);
  }

  // --- What a route carries ---

  /** A route shows the watermark recorded for its asset, or "missing" if it was never observed. */
  lemma RouteShowsWatermark(k: Knowledge, i: nat)
    requires DecisionOf(k).status == Selected && i < |DecisionOf(k).routes|
    ensures var route := DecisionOf(k).routes[i]; var target := (route.sourceId, route.assetId);
      route.watermark == if target in k.observations then k.observations[target].watermark else "missing"
  {
    SelectedFindings(k);
  }
}
