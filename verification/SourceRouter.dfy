/** Semantic- and freshness-aware routing of concepts to source assets. */
module SourceRouter {
  import opened Wrappers
  import opened Ordering
  import opened Models
  import opened Governance
  import opened Freshness
  import opened Routing

  datatype RouteStatus = Selected | RouteRefused | EscalationRequired

  datatype SelectedRoute = SelectedRoute(
    sourceId: string, assetId: string, conceptIds: seq<string>, mappingIds: seq<string>, score: real,
    watermark: string, lineage: seq<LineageRef>)

  datatype RouteDecision = RouteDecision(
    requestId: string, status: RouteStatus, routes: seq<SelectedRoute>, uncovered: seq<string>, reasons: seq<Reason>)

  // The reason codes, "tag:concept" in the source.
  datatype Tag = AmbiguousMapping | UncoveredConcept | StaleMapping | FreshnessRefused | FreshnessDegraded

  datatype Reason = About(tag: Tag, conceptId: string) | SourceBoundExceeded

  type Winning = map<string, SemanticMappingCandidate>

  function HomeOf(mapping: SemanticMappingCandidate): Target {
    (mapping.sourceId, mapping.assetId)
  }

  function TargetsOf(won: Winning, concepts: seq<string>): set<Target> {
    set c | c in concepts && c in won :: HomeOf(won[c])
  }

  predicate Goes(won: Winning, conceptId: string, targets: set<Target>) {
    conceptId in won && HomeOf(won[conceptId]) in targets
  }

  // The concepts whose winner is in one of these targets, in order and with repeats ...
  function Group(won: Winning, concepts: seq<string>, targets: set<Target>): (r: seq<string>)
    ensures forall i :: 0 <= i < |r| ==> Goes(won, r[i], targets)
  {
    if concepts == [] then []
    else Group(won, concepts[..|concepts| - 1], targets) + Single(won, concepts[|concepts| - 1], targets)
  }

  function Single(won: Winning, conceptId: string, targets: set<Target>): seq<string> {
    if Goes(won, conceptId, targets) then [conceptId] else []
  }

  // ... and their winners.
  function Mappings(won: Winning, concepts: seq<string>, targets: set<Target>): seq<SemanticMappingCandidate> {
    var group := Group(won, concepts, targets);
    seq(|group|, i requires 0 <= i < |group| => won[group[i]])
  }

  function Total(mappings: seq<SemanticMappingCandidate>): real {
    if mappings == [] then 0.0 else Total(mappings[..|mappings| - 1]) + mappings[|mappings| - 1].confidence
  }

  function IdsOf(mappings: seq<SemanticMappingCandidate>): seq<string> {
    seq(|mappings|, i requires 0 <= i < |mappings| => mappings[i].mappingId)
  }

  function ConceptsOf(mappings: seq<SemanticMappingCandidate>): seq<string> {
    seq(|mappings|, i requires 0 <= i < |mappings| => mappings[i].conceptId)
  }

  function LineageOf(mappings: seq<SemanticMappingCandidate>): seq<LineageRef> {
    if mappings == [] then [] else LineageOf(mappings[..|mappings| - 1]) + mappings[|mappings| - 1].lineage
  }

  // The mean confidence; a group is never empty.
  function Score(mappings: seq<SemanticMappingCandidate>): real {
    if mappings == [] then 0.0 else Total(mappings) / |mappings| as real
  }

  function RouteTo(k: Knowledge, target: Target, mappings: seq<SemanticMappingCandidate>): SelectedRoute {
    StringOrder();
    SelectedRoute(target.0, target.1, Sort(ConceptsOf(mappings), StringLeq), Sort(IdsOf(mappings), StringLeq),
      Score(mappings), Assess(k.observations, target, k.request.slo, k.at).watermark, LineageOf(mappings))
  }

  function Routes(k: Knowledge, won: Winning, concepts: seq<string>, targets: seq<Target>): (r: seq<SelectedRoute>)
    ensures |r| == |targets|
    ensures forall i :: 0 <= i < |r| ==> r[i] == RouteTo(k, targets[i], Mappings(won, concepts, {targets[i]}))
  {
    if targets == [] then []
    else
      var last := targets[|targets| - 1];
      Routes(k, won, concepts, targets[..|targets| - 1]) + [RouteTo(k, last, Mappings(won, concepts, {last}))]
  }

  function SortedTargets(targets: set<Target>): (r: seq<Target>)
    ensures forall i :: 0 <= i < |r| ==> r[i] in targets
    ensures forall t :: t in r <==> t in targets
    ensures SortedBy(r, PairLeq) && forall i, j :: 0 <= i < j < |r| ==> r[i] != r[j]
  {
    PairOrder();
    var r := SortSet(targets, PairLeq);
    assert forall i :: 0 <= i < |r| ==> r[i] in r;
    r
  }

  // Sorted reason codes.
  function Reasons(tag: Tag, concepts: set<string>): seq<Reason> {
    var sorted := SortedStrings(concepts);
    seq(|sorted|, i requires 0 <= i < |sorted| => About(tag, sorted[i]))
  }

  // Some mapping qualifies but is stale.
  predicate HasStale(k: Knowledge, conceptId: string) {
    exists id :: id in k.registry.candidates && Qualifies(k, conceptId, id) && !AssessmentOf(k, id).isFresh
  }

  // What is found out about the requested concepts, one by one.
  datatype Findings = Findings(
    nothing: set<string>, unclear: set<string>, won: Winning, wonStale: set<string>, passedOver: set<string>)

  function FindingsOf(k: Knowledge): Findings {
    var concepts := k.request.conceptIds;
    var won := Winners(k, concepts);
    Findings(
      (set c | c in concepts && ChoiceOf(k, c).Nothing?),
      (set c | c in concepts && ChoiceOf(k, c).Unclear?),
      won,
      (set c | c in won && IsStale(k, HomeOf(won[c]))),
      (set c | c in concepts && k.request.slo.onBreach != Degrade && HasStale(k, c)))
  }

  predicate IsStale(k: Knowledge, target: Target) {
    !Assess(k.observations, target, k.request.slo, k.at).isFresh
  }

  function Escalation(request: RouteRequest, ambiguous: set<string>, uncovered: set<string>): RouteDecision {
    RouteDecision(request.requestId, EscalationRequired, [], SortedStrings(uncovered + ambiguous), Reasons(AmbiguousMapping, ambiguous))
  }

  function Refusal(request: RouteRequest, uncovered: set<string>, stale: set<string>, refused: set<string>, tooMany: bool): RouteDecision {
    RouteDecision(request.requestId, RouteRefused, [], SortedStrings(uncovered),
      Reasons(UncoveredConcept, uncovered) + Reasons(StaleMapping, stale) + Reasons(FreshnessRefused, refused)
      + if tooMany then [SourceBoundExceeded] else [])
  }

  function Selection(request: RouteRequest, routes: seq<SelectedRoute>, degraded: set<string>): RouteDecision {
    RouteDecision(request.requestId, Selected, routes, [], Reasons(FreshnessDegraded, degraded))
  }

  function SelectedRoutes(k: Knowledge, won: Winning): seq<SelectedRoute> {
    Routes(k, won, k.request.conceptIds, SortedTargets(TargetsOf(won, k.request.conceptIds)))
  }

  function Concluding(k: Knowledge, f: Findings): RouteDecision {
    var tooMany := |TargetsOf(f.won, k.request.conceptIds)| > k.request.maxSources;
    if f.unclear != {} then Escalation(k.request, f.unclear, f.nothing)
    else if f.nothing != {} || tooMany then
      var isRefused := k.request.slo.onBreach == Refuse;
      Refusal(k.request, f.nothing, if isRefused then {} else f.passedOver, if isRefused then f.passedOver else {}, tooMany)
    else Selection(k.request, SelectedRoutes(k, f.won), f.wonStale)
  }

  /** The decision route() takes. */
  function DecisionOf(k: Knowledge): RouteDecision {
    Concluding(k, FindingsOf(k))
  }

  // --- When each status is taken ---

  ghost function WinningTargets(k: Knowledge): set<Target> {
    set c, id | c in k.request.conceptIds && id in k.registry.candidates && Wins(k, c, id) :: TargetOf(k, id)
  }

  ghost predicate Decided(k: Knowledge, conceptId: string) {
    exists id :: Wins(k, conceptId, id)
  }

  ghost predicate IsWinner(k: Knowledge, conceptId: string, mapping: SemanticMappingCandidate) {
    exists id :: Wins(k, conceptId, id) && k.registry.candidates[id] == mapping
  }

  ghost predicate TheWinners(k: Knowledge, won: Winning) {
    && (forall c :: c in won <==> c in k.request.conceptIds && Decided(k, c))
    && (forall c :: c in won ==> IsWinner(k, c, won[c]))
  }

  lemma WinnersAreTheWinning(k: Knowledge)
    requires k.request.ambiguityDelta >= 0.0
    ensures TheWinners(k, Winners(k, k.request.conceptIds))
  {
    var won := Winners(k, k.request.conceptIds);
    forall c | c in k.request.conceptIds
      ensures c in won <==> Decided(k, c)
      ensures c in won ==> IsWinner(k, c, won[c])
    {
      ChoiceDecides(k, c);
    }
  }

  lemma TargetsAreTheWinning(k: Knowledge, won: Winning)
    requires k.request.ambiguityDelta >= 0.0 && TheWinners(k, won)
    ensures TargetsOf(won, k.request.conceptIds) == WinningTargets(k)
  {
  }

  lemma StatusSets(k: Knowledge)
    requires k.request.ambiguityDelta >= 0.0
    ensures var f, concepts := FindingsOf(k), k.request.conceptIds;
      && (forall c :: c in f.unclear <==> c in concepts && Ambiguous(k, c))
      && (forall c :: c in concepts ==> (c !in f.unclear && c !in f.nothing <==> Decided(k, c)))
      && f.nothing <= Elements(concepts)
  {
    forall c | c in k.request.conceptIds
      ensures ChoiceOf(k, c).Unclear? <==> Ambiguous(k, c)
      ensures ChoiceOf(k, c).Winner? <==> Decided(k, c)
    {
      ChoiceDecides(k, c);
    }
  }

  /** Escalation exactly for an ambiguous concept; selection exactly when every concept has a winner and the winners fit the bound. */
  lemma RouterCharacterised(k: Knowledge)
    requires k.request.ambiguityDelta >= 0.0
    ensures var d := DecisionOf(k);
      && (d.status == EscalationRequired <==> exists c :: c in k.request.conceptIds && Ambiguous(k, c))
      && (d.status == Selected <==> (forall c :: c in k.request.conceptIds ==> Decided(k, c)) && |WinningTargets(k)| <= k.request.maxSources)
  {
    StatusSets(k);
    WinnersAreTheWinning(k);
    TargetsAreTheWinning(k, Winners(k, k.request.conceptIds));
  }

  // --- Where every concept goes ---

  function Routed(routes: seq<SelectedRoute>): multiset<string> {
    if routes == [] then multiset{} else Routed(routes[..|routes| - 1]) + multiset(routes[|routes| - 1].conceptIds)
  }

  lemma SingleSplits(won: Winning, conceptId: string, targets: set<Target>, target: Target)
    requires target !in targets
    ensures multiset(Single(won, conceptId, targets + {target}))
      == multiset(Single(won, conceptId, targets)) + multiset(Single(won, conceptId, {target}))
  {
  }

  lemma {:induction false} GroupSplits(won: Winning, concepts: seq<string>, targets: set<Target>, target: Target)
    requires target !in targets
    ensures multiset(Group(won, concepts, targets + {target}))
      == multiset(Group(won, concepts, targets)) + multiset(Group(won, concepts, {target}))
  {
    if concepts != [] {
      var before, last := concepts[..|concepts| - 1], concepts[|concepts| - 1];
      GroupSplits(won, before, targets, target);
      SingleSplits(won, last, targets, target);
    }
  }

  lemma {:induction false} GroupIsAll(won: Winning, concepts: seq<string>, targets: set<Target>)
    requires forall i :: 0 <= i < |concepts| ==> Goes(won, concepts[i], targets)
    ensures Group(won, concepts, targets) == concepts
  {
    if concepts != [] {
      GroupIsAll(won, concepts[..|concepts| - 1], targets);
    }
  }

  lemma {:induction false} GroupIsNone(won: Winning, concepts: seq<string>)
    ensures Group(won, concepts, {}) == []
  {
    if concepts != [] {
      GroupIsNone(won, concepts[..|concepts| - 1]);
    }
  }

  // Every winner is filed under its own concept.
  ghost predicate Filed(won: Winning) {
    forall c :: c in won ==> won[c].conceptId == c
  }

  lemma RouteKeepsGroup(k: Knowledge, won: Winning, concepts: seq<string>, target: Target)
    requires Filed(won)
    ensures multiset(RouteTo(k, target, Mappings(won, concepts, {target})).conceptIds) == multiset(Group(won, concepts, {target}))
  {
    StringOrder();
    assert ConceptsOf(Mappings(won, concepts, {target})) == Group(won, concepts, {target});
  }

  ghost function Members(targets: seq<Target>): set<Target> {
    set t | t in targets
  }

  lemma NoMembers()
    ensures Members([]) == {}
  {
  }

  lemma MembersGrow(targets: seq<Target>)
    requires targets != [] && forall i, j :: 0 <= i < j < |targets| ==> targets[i] != targets[j]
    ensures targets[|targets| - 1] !in Members(targets[..|targets| - 1])
    ensures Members(targets) == Members(targets[..|targets| - 1]) + {targets[|targets| - 1]}
  {
  }

  lemma {:induction false} RoutesPartition(won: Winning, concepts: seq<string>, targets: seq<Target>, routes: seq<SelectedRoute>)
    requires forall i, j :: 0 <= i < j < |targets| ==> targets[i] != targets[j]
    requires |routes| == |targets|
    requires forall i :: 0 <= i < |routes| ==> multiset(routes[i].conceptIds) == multiset(Group(won, concepts, {targets[i]}))
    ensures Routed(routes) == multiset(Group(won, concepts, Members(targets)))
  {
    hide Group, Members;
    if targets == [] {
      GroupIsNone(won, concepts);
      NoMembers();
    } else {
      var n := |targets| - 1;
      RoutesPartition(won, concepts, targets[..n], routes[..n]);
      MembersGrow(targets);
      GroupSplits(won, concepts, Members(targets[..n]), targets[n]);
    }
  }

  lemma WinnersAreFiled(k: Knowledge, won: Winning)
    requires TheWinners(k, won)
    ensures Filed(won)
  {
  }

  lemma SelectionRoutesAll(k: Knowledge, won: Winning, concepts: seq<string>)
    requires Filed(won) && forall c :: c in concepts ==> c in won
    ensures Routed(Routes(k, won, concepts, SortedTargets(TargetsOf(won, concepts)))) == multiset(concepts)
  {
    var targets := SortedTargets(TargetsOf(won, concepts));
    forall i | 0 <= i < |targets|
      ensures multiset(Routes(k, won, concepts, targets)[i].conceptIds) == multiset(Group(won, concepts, {targets[i]}))
    {
      RouteKeepsGroup(k, won, concepts, targets[i]);
    }
    RoutesPartition(won, concepts, targets, Routes(k, won, concepts, targets));
    forall i | 0 <= i < |concepts| ensures Goes(won, concepts[i], Members(targets)) {
      assert HomeOf(won[concepts[i]]) in targets;
    }
    GroupIsAll(won, concepts, Members(targets));
  }

  /** A selection puts every occurrence of every concept in exactly one route. */
  lemma SelectionCoversEachConceptOnce(k: Knowledge)
    requires k.request.ambiguityDelta >= 0.0 && DecisionOf(k).status == Selected
    ensures Routed(DecisionOf(k).routes) == multiset(k.request.conceptIds)
  {
    var won := Winners(k, k.request.conceptIds);
    WinnersAreTheWinning(k);
    WinnersAreFiled(k, won);
    StatusSets(k);
    SelectionRoutesAll(k, won, k.request.conceptIds);
  }

  // What a route carries: one winner of its own asset for each of its concepts.
  ghost predicate Sound(k: Knowledge, route: SelectedRoute) {
    && |route.mappingIds| == |route.conceptIds| > 0
    && SortedBy(route.mappingIds, StringLeq) && SortedBy(route.conceptIds, StringLeq)
    && (forall id :: id in route.mappingIds ==>
          exists c :: c in route.conceptIds && Wins(k, c, id) && TargetOf(k, id) == (route.sourceId, route.assetId))
    && (forall c :: c in route.conceptIds ==> exists id :: id in route.mappingIds && Wins(k, c, id))
  }

  lemma SameElements<T>(s: seq<T>, t: seq<T>)
    requires multiset(s) == multiset(t)
    ensures forall x :: x in s <==> x in t
  {
    assert forall x :: x in s <==> x in multiset(s);
    assert forall x :: x in t <==> x in multiset(t);
  }

  lemma RouteIsSound(k: Knowledge, route: SelectedRoute, won: Winning, group: seq<string>, mappings: seq<SemanticMappingCandidate>)
    requires forall id :: id in k.registry.candidates ==> k.registry.candidates[id].mappingId == id
    requires |group| == |mappings| > 0
    requires forall i :: 0 <= i < |group| ==>
      IsWinner(k, group[i], mappings[i]) && HomeOf(mappings[i]) == (route.sourceId, route.assetId)
    requires SortedBy(route.mappingIds, StringLeq) && multiset(route.mappingIds) == multiset(IdsOf(mappings))
    requires SortedBy(route.conceptIds, StringLeq) && multiset(route.conceptIds) == multiset(group)
    ensures Sound(k, route)
  {
    SameElements(IdsOf(mappings), route.mappingIds);
    SameElements(group, route.conceptIds);
    assert |multiset(route.mappingIds)| == |multiset(route.conceptIds)|;
    forall i | 0 <= i < |group|
      ensures Wins(k, group[i], mappings[i].mappingId) && TargetOf(k, mappings[i].mappingId) == (route.sourceId, route.assetId)
    {
      assert IsWinner(k, group[i], mappings[i]);
    }
    forall id | id in route.mappingIds
      ensures exists c :: c in route.conceptIds && Wins(k, c, id) && TargetOf(k, id) == (route.sourceId, route.assetId)
    {
      var i :| 0 <= i < |mappings| && IdsOf(mappings)[i] == id;
      assert group[i] in group;
    }
    forall c | c in route.conceptIds ensures exists id :: id in route.mappingIds && Wins(k, c, id) {
      var i :| 0 <= i < |group| && group[i] == c;
      assert IdsOf(mappings)[i] in IdsOf(mappings);
    }
  }

  lemma {:induction false} TargetHasMapping(won: Winning, concepts: seq<string>, target: Target)
    requires target in TargetsOf(won, concepts)
    ensures Mappings(won, concepts, {target}) != []
  {
    var n := |concepts| - 1;
    if !Goes(won, concepts[n], {target}) {
      TargetHasMapping(won, concepts[..n], target);
    }
  }

  lemma RouteToIsSound(k: Knowledge, won: Winning, target: Target)
    requires forall id :: id in k.registry.candidates ==> k.registry.candidates[id].mappingId == id
    requires TheWinners(k, won) && Mappings(won, k.request.conceptIds, {target}) != []
    ensures Sound(k, RouteTo(k, target, Mappings(won, k.request.conceptIds, {target})))
  {
    StringOrder();
    var group := Group(won, k.request.conceptIds, {target});
    WinnersAreFiled(k, won);
    RouteKeepsGroup(k, won, k.request.conceptIds, target);
    RouteIsSound(k, RouteTo(k, target, Mappings(won, k.request.conceptIds, {target})), won, group,
                 Mappings(won, k.request.conceptIds, {target}));
  }

  ghost predicate Ascending(routes: seq<SelectedRoute>) {
    forall i, j :: 0 <= i < j < |routes| ==>
      var a, b := (routes[i].sourceId, routes[i].assetId), (routes[j].sourceId, routes[j].assetId);
      PairLeq(a, b) && a != b
  }

  lemma RoutesAscend(k: Knowledge, won: Winning, concepts: seq<string>, targets: seq<Target>)
    requires SortedBy(targets, PairLeq) && forall i, j :: 0 <= i < j < |targets| ==> targets[i] != targets[j]
    ensures Ascending(Routes(k, won, concepts, targets))
  {
  }

  lemma RoutesAreSound(k: Knowledge, won: Winning, targets: seq<Target>)
    requires forall id :: id in k.registry.candidates ==> k.registry.candidates[id].mappingId == id
    requires TheWinners(k, won) && forall i :: 0 <= i < |targets| ==> targets[i] in TargetsOf(won, k.request.conceptIds)
    ensures forall i :: 0 <= i < |targets| ==> Sound(k, Routes(k, won, k.request.conceptIds, targets)[i])
  {
    forall i | 0 <= i < |targets| ensures Sound(k, Routes(k, won, k.request.conceptIds, targets)[i]) {
      TargetHasMapping(won, k.request.conceptIds, targets[i]);
      RouteToIsSound(k, won, targets[i]);
    }
  }

  lemma SelectionIsSound(k: Knowledge, won: Winning)
    requires forall id :: id in k.registry.candidates ==> k.registry.candidates[id].mappingId == id
    requires TheWinners(k, won)
    ensures Ascending(SelectedRoutes(k, won))
    ensures forall i :: 0 <= i < |SelectedRoutes(k, won)| ==> Sound(k, SelectedRoutes(k, won)[i])
  {
    var targets := SortedTargets(TargetsOf(won, k.request.conceptIds));
    RoutesAscend(k, won, k.request.conceptIds, targets);
    RoutesAreSound(k, won, targets);
  }

  /** Selected routes carry only winners of their own asset; there is one route for each asset, in order. */
  lemma SelectedRoutesAreSound(k: Knowledge)
    requires forall id :: id in k.registry.candidates ==> k.registry.candidates[id].mappingId == id
    requires k.request.ambiguityDelta >= 0.0 && DecisionOf(k).status == Selected
    ensures Ascending(DecisionOf(k).routes)
    ensures forall i :: 0 <= i < |DecisionOf(k).routes| ==> Sound(k, DecisionOf(k).routes[i])
  {
    hide Sound, Ascending, Wins, TheWinners, ChoiceOf;
    WinnersAreTheWinning(k);
    SelectionIsSound(k, Winners(k, k.request.conceptIds));
  }
}
