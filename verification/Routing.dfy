/** Which mapping a concept is routed through: the one that beats all others by a margin, if there is one. */
module Routing {
  import opened Wrappers
  import opened Ordering
  import opened Governance
  import opened Freshness

  datatype RouteRequest = RouteRequest(
    requestId: string, conceptIds: seq<string>, maxSources: int, minimumConfidence: real, ambiguityDelta: real,
    slo: FreshnessSLO)

  // All that route() reads.
  datatype Knowledge = Knowledge(
    registry: Registry, observations: map<Target, FreshnessObservation>, request: RouteRequest, at: int)

  // --- What a decision should be, without looking at any order ---

  function TargetOf(k: Knowledge, id: string): Target
    requires id in k.registry.candidates
  {
    (k.registry.candidates[id].sourceId, k.registry.candidates[id].assetId)
  }

  function ConfidenceOf(k: Knowledge, id: string): real
    requires id in k.registry.candidates
  {
    k.registry.candidates[id].confidence
  }

  function AssessmentOf(k: Knowledge, id: string): FreshnessAssessment
    requires id in k.registry.candidates
  {
    Assess(k.observations, TargetOf(k, id), k.request.slo, k.at)
  }

  // Approved, never drifted, of this concept and confident enough.
  predicate Qualifies(k: Knowledge, conceptId: string, id: string) {
    && ApprovedId(k.registry, id, false) && k.registry.candidates[id].conceptId == conceptId
    && k.registry.candidates[id].confidence >= k.request.minimumConfidence
  }

  // ... and fresh, or stale in a way the objective tolerates.
  predicate Eligible(k: Knowledge, conceptId: string, id: string) {
    Qualifies(k, conceptId, id) && (AssessmentOf(k, id).isFresh || k.request.slo.onBreach == Degrade)
  }

  // Beats every other eligible mapping by more than the ambiguity margin.
  ghost predicate Wins(k: Knowledge, conceptId: string, id: string) {
    && Eligible(k, conceptId, id)
    && forall rival :: Eligible(k, conceptId, rival) && rival != id ==>
         ConfidenceOf(k, id) - ConfidenceOf(k, rival) > k.request.ambiguityDelta
  }

  ghost predicate Covered(k: Knowledge, conceptId: string) {
    exists id :: Eligible(k, conceptId, id)
  }

  ghost predicate Ambiguous(k: Knowledge, conceptId: string) {
    Covered(k, conceptId) && !exists id :: Wins(k, conceptId, id)
  }

  // --- One concept ---

  datatype Choice = Nothing | Unclear | Winner(id: string)

  ghost predicate Decides(k: Knowledge, conceptId: string, choice: Choice) {
    match choice
    case Nothing => !Covered(k, conceptId)
    case Unclear => Ambiguous(k, conceptId)
    case Winner(id) => Wins(k, conceptId, id)
  }

  // The sort key: confidence from high to low, then the mapping id.
  predicate RankLeq(a: (real, string), b: (real, string)) {
    a.0 > b.0 || (a.0 == b.0 && StringLeq(a.1, b.1))
  }

  lemma RankOrder()
    ensures TotalOrder(RankLeq)
  {
    StringOrder();
  }

  function Ranked(k: Knowledge, ids: seq<string>): seq<(real, string)>
    requires forall i :: 0 <= i < |ids| ==> ids[i] in k.registry.candidates
  {
    seq(|ids|, i requires 0 <= i < |ids| => (ConfidenceOf(k, ids[i]), ids[i]))
  }

  // The test on the two best ranked, as the code makes it.
  function TopTwo(k: Knowledge, ranked: seq<(real, string)>): Choice {
    if ranked == [] then Nothing
    else if |ranked| > 1 && ranked[0].0 - ranked[1].0 <= k.request.ambiguityDelta then Unclear
    else Winner(ranked[0].1)
  }

  ghost predicate Ranks(k: Knowledge, conceptId: string, ranked: seq<(real, string)>) {
    && SortedBy(ranked, RankLeq)
    && (forall i, j :: 0 <= i < j < |ranked| ==> ranked[i].1 != ranked[j].1)
    && (forall i :: 0 <= i < |ranked| ==> Eligible(k, conceptId, ranked[i].1) && ranked[i].0 == ConfidenceOf(k, ranked[i].1))
    && (forall id :: Eligible(k, conceptId, id) ==> exists i :: 0 <= i < |ranked| && ranked[i].1 == id)
  }

  /** Comparing the two best ranked mappings decides whether any mapping beats all others by the margin. */
  lemma TopTwoDecides(k: Knowledge, conceptId: string, ranked: seq<(real, string)>)
    requires k.request.ambiguityDelta >= 0.0 && Ranks(k, conceptId, ranked)
    ensures Decides(k, conceptId, TopTwo(k, ranked))
  {
  }

  // --- The decision as a function of what is known ---

  function EligibleAmong(k: Knowledge, conceptId: string, ids: seq<string>): (r: seq<string>)
    ensures forall id :: id in r <==> id in ids && Eligible(k, conceptId, id)
    ensures (forall i, j :: 0 <= i < j < |ids| ==> ids[i] != ids[j]) ==> forall i, j :: 0 <= i < j < |r| ==> r[i] != r[j]
  {
    if ids == [] then []
    else
      var last := ids[|ids| - 1];
      assert forall id :: id in ids <==> id in ids[..|ids| - 1] || id == last;
      EligibleAmong(k, conceptId, ids[..|ids| - 1]) + if Eligible(k, conceptId, last) then [last] else []
  }

  // The eligible mappings of a concept in the order of the approved ones.
  function EligibleIds(k: Knowledge, conceptId: string): (ids: seq<string>)
    ensures forall i :: 0 <= i < |ids| ==> ids[i] in k.registry.candidates
    ensures forall id :: id in ids <==> Eligible(k, conceptId, id)
    ensures forall i, j :: 0 <= i < j < |ids| ==> ids[i] != ids[j]
  {
    var ids := EligibleAmong(k, conceptId, ApprovedFor(k.registry, conceptId));
    assert forall i :: 0 <= i < |ids| ==> ids[i] in ids;
    ids
  }

  function RankedEligible(k: Knowledge, conceptId: string): (r: seq<(real, string)>)
  {
    RankOrder();
    Sort(Ranked(k, EligibleIds(k, conceptId)), RankLeq)
  }

  lemma SortKeepsRanks(k: Knowledge, conceptId: string, ids: seq<string>, ranked: seq<(real, string)>)
    requires forall i :: 0 <= i < |ids| ==> ids[i] in k.registry.candidates
    requires forall id :: id in ids <==> Eligible(k, conceptId, id)
    requires forall i, j :: 0 <= i < j < |ids| ==> ids[i] != ids[j]
    requires SortedBy(ranked, RankLeq) && multiset(ranked) == multiset(Ranked(k, ids))
    ensures Ranks(k, conceptId, ranked)
  {
    var keys := Ranked(k, ids);
    forall i | 0 <= i < |ranked|
      ensures Eligible(k, conceptId, ranked[i].1) && ranked[i].0 == ConfidenceOf(k, ranked[i].1)
    {
      assert ranked[i] in multiset(ranked) && ranked[i] in keys;
      var j :| 0 <= j < |keys| && keys[j] == ranked[i];
      assert ids[j] in ids;
    }
    forall id | Eligible(k, conceptId, id) ensures exists i :: 0 <= i < |ranked| && ranked[i].1 == id {
      var j :| 0 <= j < |ids| && ids[j] == id;
      assert keys[j] in keys && keys[j] in multiset(ranked);
      var i :| 0 <= i < |ranked| && ranked[i] == keys[j];
    }
    forall i, j | 0 <= i < j < |ranked| ensures ranked[i].1 != ranked[j].1 {
      if ranked[i].1 == ranked[j].1 {
        assert ranked[i] == ranked[j];
        TwiceIn(ranked, i, j);
        OnceIn(keys, ranked[i]);
      }
    }
  }

  function ChoiceOf(k: Knowledge, conceptId: string): Choice {
    TopTwo(k, RankedEligible(k, conceptId))
  }

  lemma ChoiceDecides(k: Knowledge, conceptId: string)
    requires k.request.ambiguityDelta >= 0.0
    ensures Decides(k, conceptId, ChoiceOf(k, conceptId))
  {
    RankOrder();
    SortKeepsRanks(k, conceptId, EligibleIds(k, conceptId), RankedEligible(k, conceptId));
    TopTwoDecides(k, conceptId, RankedEligible(k, conceptId));
  }

  lemma WinnerIsEligible(k: Knowledge, conceptId: string)
    requires ChoiceOf(k, conceptId).Winner?
    ensures Eligible(k, conceptId, ChoiceOf(k, conceptId).id)
  {
    RankOrder();
    SortKeepsRanks(k, conceptId, EligibleIds(k, conceptId), RankedEligible(k, conceptId));
  }

  // The winning mapping of each concept that has one.
  function Winners(k: Knowledge, concepts: seq<string>): map<string, SemanticMappingCandidate> {
    map c | c in concepts && ChoiceOf(k, c).Winner? :: (WinnerIsEligible(k, c); k.registry.candidates[ChoiceOf(k, c).id])
  }
}
