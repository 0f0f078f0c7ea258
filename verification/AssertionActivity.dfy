/** What one assertion contributes to the graph, at which times, and what its retraction takes away. */
module AssertionActivity {
  import opened Wrappers
  import opened IdentityClusters
  import opened AssertionGraph

  function Without(g: Graph, id: string): Graph {
    g.(assertions := g.assertions - {id})
  }

  // Known by then and not yet retracted, and valid at the time.
  predicate InForce(g: Graph, id: string, validAt: int, knownAt: int)
    requires id in g.assertions
  {
    var a := g.assertions[id];
    && a.assertedAt <= knownAt && (id in g.retractions ==> knownAt < g.retractions[id].retractedAt)
    && a.validFrom <= validAt && (a.validTo.Some? ==> validAt < a.validTo.value)
  }

  // The others are active with and without it.
  lemma OthersStay(g: Graph, id: string, kind: AssertionPredicate, validAt: int, knownAt: int, e: Edge)
    requires id in g.assertions
    ensures e in Ends(g, kind, validAt, knownAt) <==>
      || e in Ends(Without(g, id), kind, validAt, knownAt)
      || (ActiveAt(g, id, validAt, knownAt) && g.assertions[id].predicate_ == kind && g.assertions[id].Ends() == e)
  {
    var rest := Without(g, id);
    if e in Ends(g, kind, validAt, knownAt) {
      var item :| item in Active(g, validAt, knownAt) && item.predicate_ == kind && item.Ends() == e;
      var j :| j in g.assertions && ActiveAt(g, j, validAt, knownAt) && g.assertions[j] == item;
      if j != id { assert ActiveAt(rest, j, validAt, knownAt) && rest.assertions[j] in Active(rest, validAt, knownAt); }
    }
    if e in Ends(rest, kind, validAt, knownAt) {
      var item :| item in Active(rest, validAt, knownAt) && item.predicate_ == kind && item.Ends() == e;
      var j :| j in rest.assertions && ActiveAt(rest, j, validAt, knownAt) && rest.assertions[j] == item;
      assert ActiveAt(g, j, validAt, knownAt) && g.assertions[j] in Active(g, validAt, knownAt);
    }
    if ActiveAt(g, id, validAt, knownAt) { assert g.assertions[id] in Active(g, validAt, knownAt); }
  }

  /** At any times an assertion adds its own two ends to those of the other assertions if it is in force, and nothing otherwise. */
  lemma AssertionCounts(g: Graph, id: string, kind: AssertionPredicate, validAt: int, knownAt: int)
    requires id in g.assertions
    ensures Ends(g, kind, validAt, knownAt) == Ends(Without(g, id), kind, validAt, knownAt)
      + if g.assertions[id].predicate_ == kind && InForce(g, id, validAt, knownAt) then {g.assertions[id].Ends()} else {}
  {
    hide Ends;
    forall e { OthersStay(g, id, kind, validAt, knownAt, e); }
  }

  function Retracted(g: Graph, r: AssertionRetraction): Graph {
    g.(retractions := g.retractions[r.assertionId := r])
  }

  lemma SameRest(g: Graph, r: AssertionRetraction, kind: AssertionPredicate, validAt: int, knownAt: int)
    ensures Ends(Without(Retracted(g, r), r.assertionId), kind, validAt, knownAt) == Ends(Without(g, r.assertionId), kind, validAt, knownAt)
  {
    var a, b := Without(Retracted(g, r), r.assertionId), Without(g, r.assertionId);
    forall id | id in a.assertions ensures ActiveAt(a, id, validAt, knownAt) == ActiveAt(b, id, validAt, knownAt) {}
    assert Active(a, validAt, knownAt) == Active(b, validAt, knownAt);
  }

  lemma RetractionOnEnds(g: Graph, r: AssertionRetraction, kind: AssertionPredicate, validAt: int, knownAt: int)
    requires r.assertionId in g.assertions && r.assertionId !in g.retractions
    ensures Ends(Retracted(g, r), kind, validAt, knownAt)
         == Ends(if r.retractedAt <= knownAt then Without(g, r.assertionId) else g, kind, validAt, knownAt)
  {
    hide Ends;
    AssertionCounts(g, r.assertionId, kind, validAt, knownAt);
    AssertionCounts(Retracted(g, r), r.assertionId, kind, validAt, knownAt);
    SameRest(g, r, kind, validAt, knownAt);
  }

  /**
   From the time it takes effect on, as far as is known then, a retraction leaves the clusters, the contradiction test and the
   consistency of the graph without the assertion; before, those of the graph without the retraction.
   */
  lemma RetractionTakesAway(g: Graph, r: AssertionRetraction, validAt: int, knownAt: int)
    requires r.assertionId in g.assertions && r.assertionId !in g.retractions
    ensures var left := if r.retractedAt <= knownAt then Without(g, r.assertionId) else g;
      && Edges(Retracted(g, r), validAt, knownAt) == Edges(left, validAt, knownAt)
      && (forall a :: AcceptsAt(Retracted(g, r), a, validAt, knownAt) == AcceptsAt(left, a, validAt, knownAt))
      && (forall e :: Cluster(Edges(Retracted(g, r), validAt, knownAt), e) == Cluster(Edges(left, validAt, knownAt), e))
      && (Consistent(Retracted(g, r), validAt, knownAt) <==> Consistent(left, validAt, knownAt))
  {
    hide Ends, Linked, Across, Cluster;
    RetractionOnEnds(g, r, SameAs, validAt, knownAt);
    RetractionOnEnds(g, r, NotSameAs, validAt, knownAt);
  }

  /** A denial refused only because of an assertion is let in once that is retracted. */
  lemma DenialAfterRetraction(g: Graph, r: AssertionRetraction, denial: SemanticAssertion, at: int)
    requires r.assertionId in g.assertions && r.assertionId !in g.retractions && r.retractedAt <= at
    ensures Accepts(Retracted(g, r), denial, at) <==> Accepts(Without(g, r.assertionId), denial, at)
  {
    hide AcceptsAt, Edges, Cluster, Consistent;
    RetractionTakesAway(g, r, at, at);
  }

  // Nothing has been asserted but this.
  function Only(a: SemanticAssertion): Graph {
    Graph(map[a.assertionId := a], map[])
  }

  lemma NothingLinked(a: SemanticAssertion, at: int)
    ensures Edges(Without(Only(a), a.assertionId), at, at) == {} && Barriers(Without(Only(a), a.assertionId), at, at) == {}
  {
    assert Without(Only(a), a.assertionId).assertions == map[];
  }

  lemma LinksNothing(e: string)
    ensures Cluster({}, e) == {e} && forall d :: d != e ==> !Linked({}, e, d)
  {
    assert Closed({}, {e});
    forall d | d != e ensures !Linked({}, e, d) && d !in Cluster({}, e) {}
  }

  /**
   While the clock stands still: an identity is asserted, makes a cluster of two and keeps its denial out; retracted, it leaves
   its entity alone and the denial is let in.
   */
  method AssertRetractDeny(clock: nat -> int, same: SemanticAssertion, denial: SemanticAssertion, retraction: AssertionRetraction, now: int)
    returns (before: set<string>, refused: bool, after: set<string>, admitted: bool)
    requires forall n :: clock(n) == now
    requires same.predicate_ == SameAs && denial.predicate_ == NotSameAs && same.assertionId != denial.assertionId
    requires denial.subjectId == same.objectId && denial.objectId == same.subjectId && same.subjectId != same.objectId
    requires same.assertedAt <= now && same.validFrom <= now && (same.validTo.Some? ==> now < same.validTo.value)
    requires retraction.assertionId == same.assertionId && same.assertedAt <= retraction.retractedAt <= now
    ensures before == {same.subjectId, same.objectId} && refused
    ensures after == {same.subjectId} && admitted
  {
    hide Edges, Barriers, Linked, Cluster, AcceptsAt, Accepts, Consistent, NothingAhead, NothingStarts, Active, Ends;
    var graph := new AssertionGraph(clock);
    FirstIsAccepted(same, now);
    var r := graph.Append(same);
    assert graph.Time() == now && graph.Contents() == Only(same);
    IdentityHolds(same, denial, now);
    before := graph.EquivalenceCluster(same.subjectId);
    r := graph.Append(denial);
    refused := r.Err?;
    assert refused && graph.Contents() == Only(same);
    r := graph.Retract(retraction);
    assert graph.Contents() == Retracted(Only(same), retraction);
    IdentityGone(same, denial, retraction, now);
    after := graph.EquivalenceCluster(same.subjectId);
    r := graph.Append(denial);
    admitted := r.Ok?;
  }

  lemma FirstIsAccepted(same: SemanticAssertion, now: int)
    requires same.predicate_ == SameAs
    ensures Accepts(Graph(map[], map[]), same, now) && Extended(Graph(map[], map[]), same) == Only(same)
  {
    assert Barriers(Graph(map[], map[]), now, now) == {};
  }

  lemma IdentityHolds(same: SemanticAssertion, denial: SemanticAssertion, now: int)
    requires same.predicate_ == SameAs && denial.predicate_ == NotSameAs && InForce(Only(same), same.assertionId, now, now)
    requires denial.subjectId == same.objectId && denial.objectId == same.subjectId
    ensures Cluster(Edges(Only(same), now, now), same.subjectId) == {same.subjectId, same.objectId}
    ensures !Accepts(Only(same), denial, now)
  {
    hide Ends;
    NothingLinked(same, now);
    AssertionCounts(Only(same), same.assertionId, SameAs, now, now);
    OneEdge(same.subjectId, same.objectId);
  }

  lemma OneEdge(a: string, b: string)
    ensures Cluster({(a, b)}, a) == {a, b} && Linked({(a, b)}, b, a)
  {
    assert (a, b) in {(a, b)};
    assert Closed({(a, b)}, {a, b});
  }

  lemma IdentityGone(same: SemanticAssertion, denial: SemanticAssertion, retraction: AssertionRetraction, now: int)
    requires same.predicate_ == SameAs && denial.predicate_ == NotSameAs && same.subjectId != same.objectId
    requires denial.subjectId == same.objectId && denial.objectId == same.subjectId
    requires retraction.assertionId == same.assertionId && retraction.retractedAt <= now
    ensures var g := Retracted(Only(same), retraction);
      Cluster(Edges(g, now, now), same.subjectId) == {same.subjectId} && Accepts(g, denial, now)
  {
    hide Ends, Linked, Cluster;
    NothingLinked(same, now);
    RetractionTakesAway(Only(same), retraction, now, now);
    LinksNothing(same.subjectId);
    LinksNothing(denial.subjectId);
  }
}
