/** Human-governed promotion of candidate assertions into the shared graph. */
module SemanticMemory {
  import opened Wrappers
  import opened Ordering
  import Actions
  import G = AssertionGraph

  datatype MemoryStatus = Proposed | Approved | Rejected | Promoted

  datatype MemoryScope = MemoryScope(organizationId: string, solutionId: string, agentIds: set<string>)
  {
    predicate Allows(identity: Actions.RequestIdentity) {
      identity.organizationId == organizationId && identity.solutionId == solutionId && identity.agentId in agentIds
    }
  }

  datatype Candidate = Candidate(
    candidateId: string, assertion: G.SemanticAssertion, proposedBy: string, schemaDigest: string, scope: MemoryScope,
    status: MemoryStatus, reviewedBy: Option<string>, reviewedAt: Option<int>)

  datatype PromotedMemory = PromotedMemory(
    candidateId: string, assertion: G.SemanticAssertion, scope: MemoryScope, promotedBy: string, promotedAt: int)

  datatype MemoryError = CandidateExists | NotHuman | UnknownCandidate | AlreadyReviewed | NotApproved | ReviewMissing | GraphRefused(error: G.GraphError)

  const HUMAN := "human:"

  predicate IsHuman(reviewer: string) {
    HUMAN <= reviewer
  }

  /** A human is who is named as one. */
  lemma HumansAreNamed(reviewer: string)
    ensures IsHuman(reviewer) <==> exists name :: reviewer == "human:" + name
  {
    if IsHuman(reviewer) { assert reviewer == "human:" + reviewer[6..]; }
  }

  function Visible(promoted: map<string, PromotedMemory>, identity: Actions.RequestIdentity, keys: seq<string>): (r: seq<PromotedMemory>)
    requires forall i :: 0 <= i < |keys| ==> keys[i] in promoted
  {
    if keys == [] then []
    else (if promoted[keys[0]].scope.Allows(identity) then [promoted[keys[0]]] else []) + Visible(promoted, identity, keys[1..])
  }

  lemma {:induction false} VisibleAre(promoted: map<string, PromotedMemory>, identity: Actions.RequestIdentity, keys: seq<string>)
    requires forall i :: 0 <= i < |keys| ==> keys[i] in promoted
    ensures forall m :: m in Visible(promoted, identity, keys) <==>
      exists i :: 0 <= i < |keys| && promoted[keys[i]] == m && m.scope.Allows(identity)
  {
    if keys != [] {
      VisibleAre(promoted, identity, keys[1..]);
      forall m ensures m in Visible(promoted, identity, keys) <==>
        exists i :: 0 <= i < |keys| && promoted[keys[i]] == m && m.scope.Allows(identity)
      {
        if i :| 0 < i < |keys| && promoted[keys[i]] == m && m.scope.Allows(identity) {
          assert keys[1..][i - 1] == keys[i];
        }
        if m in Visible(promoted, identity, keys[1..]) {
          var i :| 0 <= i < |keys| - 1 && promoted[keys[1..][i]] == m && m.scope.Allows(identity);
          assert keys[i + 1] == keys[1..][i];
        }
      }
    }
  }

  // Approved, and the review on record.
  predicate Ready(c: Candidate) {
    c.status == Approved && c.reviewedBy.Some? && c.reviewedAt.Some?
  }

  // What may have become of a candidate since it was handed in.
  predicate Descends(from: Candidate, to: Candidate) {
    if from.status == Proposed then
      to == from || (to.status != Proposed && to.reviewedBy.Some? && to.reviewedAt.Some? && IsHuman(to.reviewedBy.value)
                     && to == from.(status := to.status, reviewedBy := to.reviewedBy, reviewedAt := to.reviewedAt))
    else to == from || (Ready(from) && to == from.(status := Promoted))
  }

  // A human stands behind a promotion exactly in these cases.
  predicate HumanBehind(handedIn: Candidate) {
    handedIn.status == Proposed || (handedIn.reviewedBy.Some? && IsHuman(handedIn.reviewedBy.value))
  }

  /**
   The promise: a candidate changes by review and promotion only; what is promoted is in the graph, and a human stands behind
   it exactly if it was handed in for review or with a human's approval.
   */
  ghost predicate Coherent(handedIn: map<string, Candidate>, candidates: map<string, Candidate>,
    promoted: map<string, PromotedMemory>, assertions: map<string, G.SemanticAssertion>)
  {
    && handedIn.Keys == candidates.Keys
    && (forall id :: id in candidates ==> candidates[id].candidateId == id && Descends(handedIn[id], candidates[id]))
    && (forall id :: id in promoted ==>
          id in candidates && Records(id, promoted[id], handedIn[id], candidates[id]) && InGraph(promoted[id].assertion, assertions))
  }

  predicate InGraph(a: G.SemanticAssertion, assertions: map<string, G.SemanticAssertion>) {
    a.assertionId in assertions && assertions[a.assertionId] == a
  }

  predicate Records(id: string, m: PromotedMemory, handedIn: Candidate, candidate: Candidate) {
    && m.candidateId == id && candidate.status == Promoted && m.assertion == candidate.assertion && m.scope == candidate.scope
    && candidate.reviewedBy == Some(m.promotedBy) && candidate.reviewedAt == Some(m.promotedAt)
    && (IsHuman(m.promotedBy) <==> HumanBehind(handedIn))
  }

  function RecordOf(c: Candidate): PromotedMemory
    requires c.reviewedBy.Some? && c.reviewedAt.Some?
  {
    PromotedMemory(c.candidateId, c.assertion, c.scope, c.reviewedBy.value, c.reviewedAt.value)
  }

  lemma PromotionDescends(from: Candidate, to: Candidate)
    requires Descends(from, to) && Ready(to)
    ensures Descends(from, to.(status := Promoted)) && Records(to.candidateId, RecordOf(to), from, to.(status := Promoted))
  {
  }

  lemma PromotionKeepsCoherent(handedIn: map<string, Candidate>, candidates: map<string, Candidate>,
    promoted: map<string, PromotedMemory>, assertions: map<string, G.SemanticAssertion>, id: string)
    requires Coherent(handedIn, candidates, promoted, assertions) && id in candidates && Ready(candidates[id])
    requires candidates[id].assertion.assertionId !in assertions
    ensures id !in promoted
    ensures Coherent(handedIn, candidates[id := candidates[id].(status := Promoted)], promoted[id := RecordOf(candidates[id])],
                     assertions[candidates[id].assertion.assertionId := candidates[id].assertion])
  {
    hide Descends, HumanBehind, IsHuman;
    PromotionDescends(handedIn[id], candidates[id]);
  }

  // Strictly increasing candidates, all of them among the keys.
  ghost predicate InOrder(memories: seq<PromotedMemory>, keys: seq<string>) {
    && (forall i :: 0 <= i < |memories| ==> memories[i].candidateId in keys)
    && (forall i, j :: 0 <= i < j < |memories| ==> Before(memories[i].candidateId, memories[j].candidateId))
  }

  predicate Before(a: string, b: string) {
    StringLeq(a, b) && a != b
  }

  lemma {:induction false} VisibleInOrder(promoted: map<string, PromotedMemory>, identity: Actions.RequestIdentity, keys: seq<string>)
    requires forall i :: 0 <= i < |keys| ==> keys[i] in promoted && promoted[keys[i]].candidateId == keys[i]
    requires forall i, j :: 0 <= i < j < |keys| ==> Before(keys[i], keys[j])
    ensures InOrder(Visible(promoted, identity, keys), keys)
  {
    hide Before;
    if keys != [] {
      var tail, head := keys[1..], promoted[keys[0]];
      VisibleInOrder(promoted, identity, tail);
      var rest := Visible(promoted, identity, tail);
      assert InOrder(rest, tail);
      assert Visible(promoted, identity, keys) == (if head.scope.Allows(identity) then [head] else []) + rest;
      FirstOfAll(head, keys, rest);
    }
  }

  lemma FirstOfAll(head: PromotedMemory, keys: seq<string>, rest: seq<PromotedMemory>)
    requires keys != [] && head.candidateId == keys[0] && InOrder(rest, keys[1..])
    requires forall i, j :: 0 <= i < j < |keys| ==> Before(keys[i], keys[j])
    ensures InOrder(rest, keys) && InOrder([head] + rest, keys)
  {
    hide Before;
    forall i | 0 <= i < |rest| ensures rest[i].candidateId in keys && Before(head.candidateId, rest[i].candidateId) {
      var k :| 0 <= k < |keys[1..]| && keys[1..][k] == rest[i].candidateId;
      assert keys[k + 1] == rest[i].candidateId;
    }
  }

  // Over the sorted keys, the visible memories are those the scope allows, each once.
  lemma VisibleFromKeys(promoted: map<string, PromotedMemory>, identity: Actions.RequestIdentity, keys: seq<string>)
    requires forall id :: id in promoted ==> promoted[id].candidateId == id
    requires (forall id :: id in keys <==> id in promoted) && forall i, j :: 0 <= i < j < |keys| ==> Before(keys[i], keys[j])
    ensures forall m :: m in Visible(promoted, identity, keys) <==> m in promoted.Values && m.scope.Allows(identity)
    ensures InOrder(Visible(promoted, identity, keys), keys)
  {
    hide Before, Visible, InOrder;
    VisibleAre(promoted, identity, keys);
    VisibleInOrder(promoted, identity, keys);
    forall m | m in promoted.Values && m.scope.Allows(identity) ensures m in Visible(promoted, identity, keys) {
      var id :| id in promoted && promoted[id] == m;
      var i :| 0 <= i < |keys| && keys[i] == id;
    }
  }

  class GovernedSemanticMemory {
    const graph: G.AssertionGraph
    var candidates: map<string, Candidate>
    var promoted: map<string, PromotedMemory>
    // The candidates as they were handed in, in whatever status.
    ghost var handedIn: map<string, Candidate>

    constructor (graph: G.AssertionGraph)
      requires graph.Valid()
      ensures Valid() && this.graph == graph && candidates == map[] && promoted == map[] && handedIn == map[]
    {
      this.graph := graph;
      candidates, promoted, handedIn := map[], map[], map[];
    }

    ghost predicate Valid()
      reads this, graph
    {
      graph.Valid() && Coherent(handedIn, candidates, promoted, graph.assertions)
    }

    method Propose(candidate: Candidate) returns (r: Result<(), MemoryError>)
      requires Valid()
      modifies this`candidates, this`handedIn
      ensures Valid()
      ensures r == if candidate.candidateId in old(candidates) then Err(CandidateExists) else Ok(())
      ensures candidates == if r.Ok? then old(candidates)[candidate.candidateId := candidate] else old(candidates)
      ensures handedIn == if r.Ok? then old(handedIn)[candidate.candidateId := candidate] else old(handedIn)
    {
      if candidate.candidateId in candidates {
        return Err(CandidateExists);
      }
      candidates := candidates[candidate.candidateId := candidate];
      handedIn := handedIn[candidate.candidateId := candidate];
      return Ok(());
    }

    method Review(id: string, reviewerId: string, at: int, approve: bool) returns (r: Result<Candidate, MemoryError>)
      requires Valid()
      modifies this`candidates
      ensures Valid()
      ensures match r
        case Ok(c) => IsHuman(reviewerId) && id in old(candidates) && old(candidates)[id].status == Proposed
                      && c == old(candidates)[id].(status := if approve then Approved else Rejected, reviewedBy := Some(reviewerId), reviewedAt := Some(at))
                      && candidates == old(candidates)[id := c]
        case Err(e) => candidates == old(candidates)
                       && (IsHuman(reviewerId) && id in candidates ==> candidates[id].status != Proposed)
                       && e == if !IsHuman(reviewerId) then NotHuman else if id !in candidates then UnknownCandidate else AlreadyReviewed
    {
      if !IsHuman(reviewerId) {
        return Err(NotHuman);
      }
      if id !in candidates {
        return Err(UnknownCandidate);
      }
      if candidates[id].status != Proposed {
        return Err(AlreadyReviewed);
      }
      var reviewed := candidates[id].(
        status := if approve then Approved else Rejected, reviewedBy := Some(reviewerId), reviewedAt := Some(at));
      candidates := candidates[id := reviewed];
      return Ok(reviewed);
    }

    /**
     promote(): refuses what is unknown, not approved or without a review on record; otherwise lets the graph decide.
     The assertion then enters the graph and is promoted, once, or nothing changes but the clock.
     */
    method Promote(id: string) returns (r: Result<PromotedMemory, MemoryError>)
      requires Valid()
      modifies this`candidates, this`promoted, graph`tick, graph`assertions
      ensures Valid()
      ensures r == Err(UnknownCandidate) <==> id !in old(candidates)
      ensures r == Err(NotApproved) <==> id in old(candidates) && old(candidates)[id].status != Approved
      ensures r == Err(ReviewMissing) <==>
        id in old(candidates) && old(candidates)[id].status == Approved && !Ready(old(candidates)[id])
      ensures r.Ok? || (r.Err? && r.error.GraphRefused?) <==> id in old(candidates) && Ready(old(candidates)[id])
      ensures id in old(candidates) && Ready(old(candidates)[id]) ==> LeftToTheGraph(old(candidates)[id].assertion, r)
      ensures r.Ok? ==> (
        && id !in old(promoted)
        && r.value == RecordOf(old(candidates)[id])
        && graph.assertions == old(graph.assertions)[r.value.assertion.assertionId := r.value.assertion]
        && promoted == old(promoted)[id := r.value] && candidates == old(candidates)[id := old(candidates)[id].(status := Promoted)])
      ensures r.Err? ==> candidates == old(candidates) && promoted == old(promoted) && graph.assertions == old(graph.assertions)
      ensures old(graph.Sound()) && (r.Ok? ==> r.value.assertion.assertedAt <= old(graph.Time()) && r.value.assertion.validFrom <= old(graph.Time()))
        ==> graph.Sound()
    {
      hide Coherent, G.Accepts, G.AcceptsAt, G.Active, G.ActiveAt, G.Ends, G.NothingStarts, G.NothingAhead, G.Consistent, G.NeverBack;
      if id !in candidates {
        return Err(UnknownCandidate);
      }
      var candidate := candidates[id];
      if candidate.status != Approved {
        return Err(NotApproved);
      }
      if candidate.reviewedBy.None? || candidate.reviewedAt.None? {
        return Err(ReviewMissing);
      }
      var appended := graph.Append(candidate.assertion);
      if appended.Err? {
        return Err(GraphRefused(appended.error));
      }
      PromotionKeepsCoherent(handedIn, candidates, promoted, old(graph.assertions), id);
      var record := RecordOf(candidate);
      promoted := promoted[id := record];
      candidates := candidates[id := candidate.(status := Promoted)];
      return Ok(record);
    }

    // The graph's verdict on a promotion is append's.
    twostate predicate LeftToTheGraph(a: G.SemanticAssertion, r: Result<PromotedMemory, MemoryError>)
      reads this, graph
    {
      var g := old(graph.Contents());
      && (r == Err(GraphRefused(G.AlreadyExists)) <==> a.assertionId in g.assertions)
      && (a.predicate_.Mentions? && a.assertionId !in g.assertions ==> r.Ok?)
      && (a.assertionId !in g.assertions && G.NothingStarts(g, old(graph.Time()), graph.Time()) ==>
            && (G.Accepts(g, a, old(graph.Time())) ==> r.Ok?)
            && (r.Ok? ==> G.Accepts(g, a, graph.Time())))
      && (a.assertionId !in g.assertions && old(graph.Time()) == graph.Time() ==> (r.Ok? <==> G.Accepts(g, a, graph.Time())))
    }

    /** view(): the promoted memories whose scope allows the identity, each once, in order of their candidates. */
    method View(identity: Actions.RequestIdentity) returns (memories: seq<PromotedMemory>)
      requires Valid()
      ensures forall m :: m in memories <==>
        && m in promoted.Values && m.scope.organizationId == identity.organizationId
        && m.scope.solutionId == identity.solutionId && identity.agentId in m.scope.agentIds
      ensures forall i, j :: 0 <= i < j < |memories| ==> Before(memories[i].candidateId, memories[j].candidateId)
    {
      hide Visible, Descends, HumanBehind, StringLeq, G.NeverBack;
      var keys := SortedStrings(promoted.Keys);
      VisibleFromKeys(promoted, identity, keys);
      memories := Visible(promoted, identity, keys);
    }
  }

  lemma AgentIsNotHuman(agent: string)
    requires agent != [] && agent[0] != HUMAN[0]
    ensures !IsHuman(agent)
  {
  }

  /** Handed in as approved by an agent, a candidate is promoted although no human has seen it. */
  method ApprovedByAnAgent(clock: nat -> int, assertion: G.SemanticAssertion, scope: MemoryScope) returns (r: Result<PromotedMemory, MemoryError>)
    requires G.NeverBack(clock) && assertion.predicate_.Mentions?
    ensures r.Ok? && r.value.promotedBy == "agent:x" && !IsHuman(r.value.promotedBy)
  {
    hide IsHuman, Coherent;
    AgentIsNotHuman("agent:x");
    var graph := new G.AssertionGraph(clock);
    var memory := new GovernedSemanticMemory(graph);
    var candidate := Candidate("candidate", assertion, "agent:x", "digest", scope, Approved, Some("agent:x"), Some(clock(0)));
    var proposed := memory.Propose(candidate);
    r := memory.Promote("candidate");
  }
}
