/** Whole histories of the assertion graph: when it is free of contradictions, exactly, and what append's test has to do with it. */
module AssertionHistories {
  import opened Wrappers
  import opened Models
  import opened IdentityClusters
  import opened AssertionGraph

  datatype Event = Appended(assertion: SemanticAssertion, at: int) | Retracted(retraction: AssertionRetraction, at: int)

  function Replay(history: seq<Event>): Graph {
    if history == [] then Graph(map[], map[])
    else
      var g := Replay(history[..|history| - 1]);
      match history[|history| - 1]
      case Appended(a, _) => Extended(g, a)
      case Retracted(r, _) => g.(retractions := g.retractions[r.assertionId := r])
  }

  // What append and retract let happen: each event in order of time, each append acceptable when it happened.
  ghost predicate Legal(history: seq<Event>) {
    history == [] ||
    (var n := |history| - 1;
     var g := Replay(history[..n]);
     && Legal(history[..n])
     && (n > 0 ==> history[n - 1].at <= history[n].at)
     && match history[n]
        case Appended(a, at) => a.assertionId !in g.assertions && Accepts(g, a, at) && a.assertedAt <= at && a.validFrom <= at
        case Retracted(r, _) => r.assertionId !in g.retractions)
  }

  /** Through any appends, retractions and expiries, no cluster ever holds a pair declared to differ. */
  lemma {:induction false} HistoriesStayConsistent(history: seq<Event>, at: int)
    requires Legal(history) && (history != [] ==> history[|history| - 1].at <= at)
    ensures NothingAhead(Replay(history), at)
    ensures forall validAt, knownAt :: at <= validAt && at <= knownAt ==> Consistent(Replay(history), validAt, knownAt)
  {
    if history != [] {
      var n := |history| - 1;
      var g := Replay(history[..n]);
      HistoriesStayConsistent(history[..n], history[n].at);
      assert Consistent(g, history[n].at, history[n].at);
      match history[n] {
        case Appended(a, t) => AcceptedStaysConsistent(g, a, t);
        case Retracted(r, t) => RetractionStaysConsistent(g, r, t);
      }
      forall validAt, knownAt | at <= validAt && at <= knownAt ensures Consistent(Replay(history), validAt, knownAt) {
        ConsistentLater(Replay(history), history[n].at, validAt, knownAt);
      }
    }
  }

  // --- Any history whatsoever ---

  // Every append brings a new id, as append sees to; nothing is asked of the times or of the contradiction test.
  ghost predicate NewIds(history: seq<Event>) {
    forall i :: 0 <= i < |history| && history[i].Appended? ==>
      history[i].assertion.assertionId !in Replay(history[..i]).assertions
  }

  // The i-th event's assertion, if it is active then, passes the test made then against all that was appended before it.
  ghost predicate Passes(history: seq<Event>, i: nat, retractions: map<string, AssertionRetraction>, validAt: int, knownAt: int)
    requires i < |history| && history[i].Appended?
  {
    var g, a := Graph(Replay(history[..i]).assertions, retractions), history[i].assertion;
    ActiveAt(Extended(g, a), a.assertionId, validAt, knownAt) ==> AcceptsAt(g, a, validAt, knownAt)
  }

  ghost predicate AllPass(history: seq<Event>, retractions: map<string, AssertionRetraction>, validAt: int, knownAt: int) {
    forall i :: 0 <= i < |history| && history[i].Appended? ==> Passes(history, i, retractions, validAt, knownAt)
  }

  lemma PassesEarlier(history: seq<Event>, i: nat, retractions: map<string, AssertionRetraction>, validAt: int, knownAt: int)
    requires i < |history| - 1 && history[i].Appended?
    ensures Passes(history[..|history| - 1], i, retractions, validAt, knownAt) == Passes(history, i, retractions, validAt, knownAt)
  {
    assert history[..|history| - 1][..i] == history[..i];
  }

  lemma NewIdsEarlier(history: seq<Event>)
    requires NewIds(history) && history != []
    ensures NewIds(history[..|history| - 1])
  {
    forall i | 0 <= i < |history| - 1 && history[i].Appended?
      ensures history[i].assertion.assertionId !in Replay(history[..|history| - 1][..i]).assertions
    {
      assert history[..|history| - 1][..i] == history[..i];
    }
  }

  lemma {:induction false} ConsistentIfAllPass(history: seq<Event>, retractions: map<string, AssertionRetraction>, validAt: int, knownAt: int)
    requires NewIds(history)
    ensures Consistent(Graph(Replay(history).assertions, retractions), validAt, knownAt)
      <==> AllPass(history, retractions, validAt, knownAt)
  {
    if history == [] {
      assert Barriers(Graph(map[], retractions), validAt, knownAt) == {};
    } else {
      var n := |history| - 1;
      var g := Graph(Replay(history[..n]).assertions, retractions);
      NewIdsEarlier(history);
      ConsistentIfAllPass(history[..n], retractions, validAt, knownAt);
      forall i | 0 <= i < n && history[i].Appended? { PassesEarlier(history, i, retractions, validAt, knownAt); }
      AllPassMore(history, retractions, validAt, knownAt);
      if history[n].Appended? {
        ExtensionIsExact(g, history[n].assertion, validAt, knownAt);
        assert Graph(Replay(history).assertions, retractions) == Extended(g, history[n].assertion);
      } else {
        assert Graph(Replay(history).assertions, retractions) == g;
      }
    }
  }

  lemma AllPassMore(history: seq<Event>, retractions: map<string, AssertionRetraction>, validAt: int, knownAt: int)
    requires history != []
    ensures var n := |history| - 1;
      AllPass(history, retractions, validAt, knownAt) <==>
        && AllPass(history[..n], retractions, validAt, knownAt)
        && (history[n].Appended? ==> Passes(history, n, retractions, validAt, knownAt))
  {
    hide Passes;
    var n := |history| - 1;
    forall i | 0 <= i < n && history[i].Appended?
      ensures Passes(history[..n], i, retractions, validAt, knownAt) == Passes(history, i, retractions, validAt, knownAt)
    {
      PassesEarlier(history, i, retractions, validAt, knownAt);
    }
    if AllPass(history, retractions, validAt, knownAt) {
      forall i | 0 <= i < n && history[..n][i].Appended? ensures Passes(history[..n], i, retractions, validAt, knownAt) {
        assert history[..n][i] == history[i];
      }
    }
  }

  /**
   Exactly when a graph is free of contradictions: at any pair of times, after any appends and retractions, every assertion
   active then would have passed append's test had it been made for that time.  Append makes it for the time of the call.
   */
  lemma ConsistencyIsExact(history: seq<Event>, validAt: int, knownAt: int)
    requires NewIds(history)
    ensures Consistent(Replay(history), validAt, knownAt) <==> AllPass(history, Replay(history).retractions, validAt, knownAt)
  {
    var g := Replay(history);
    ConsistentIfAllPass(history, g.retractions, validAt, knownAt);
    assert g == Graph(g.assertions, g.retractions);
  }

  lemma {:induction false} LegalIdsAreNew(history: seq<Event>)
    requires Legal(history)
    ensures NewIds(history)
  {
    if history != [] {
      var n := |history| - 1;
      LegalIdsAreNew(history[..n]);
      forall i | 0 <= i <= n && history[i].Appended? ensures history[i].assertion.assertionId !in Replay(history[..i]).assertions {
        if i < n { assert history[..n][i] == history[i] && history[..n][..i] == history[..i]; }
      }
    }
  }

  /** So an assertion that passed the test when it was appended, not ahead of its time, passes it at every later time. */
  lemma PassedForGood(history: seq<Event>, at: int, validAt: int, knownAt: int)
    requires Legal(history) && (history != [] ==> history[|history| - 1].at <= at) && at <= validAt && at <= knownAt
    ensures AllPass(history, Replay(history).retractions, validAt, knownAt)
  {
    LegalIdsAreNew(history);
    HistoriesStayConsistent(history, at);
    ConsistencyIsExact(history, validAt, knownAt);
  }

  // The assertion, never retracted, is active at this time.
  predicate Lives(a: SemanticAssertion, at: int) {
    a.assertedAt <= at && a.validFrom <= at && (a.validTo.None? || at < a.validTo.value)
  }

  /**
   Where that fails: an identity and its denial, both active later.  The denial is let in exactly if the identity is not
   active at the time of the call, whether or not the denial is; when both are, they contradict each other.
   */
  lemma AheadOfTimeContradicts(same: SemanticAssertion, differ: SemanticAssertion, now: int, later: int)
    requires same.predicate_ == SameAs && differ.predicate_ == NotSameAs && same.Ends() == differ.Ends()
    requires same.subjectId != same.objectId && same.assertionId != differ.assertionId
    requires Lives(same, later) && Lives(differ, later)
    ensures var empty := Graph(map[], map[]);
      && Accepts(empty, same, now)
      && (Accepts(Extended(empty, same), differ, now) <==> !Lives(same, now))
      && !Consistent(Extended(Extended(empty, same), differ), later, later)
  {
    var empty := Graph(map[], map[]);
    var one := Extended(empty, same);
    ExtendedEnds(empty, same, SameAs, now, now);
    ExtendedEnds(empty, same, NotSameAs, now, now);
    ExtendedEnds(empty, same, SameAs, later, later);
    assert Edges(empty, now, now) == Barriers(empty, now, now) == Edges(empty, later, later) == {};
    assert Closed({}, {differ.subjectId});
    assert !Linked({}, differ.subjectId, differ.objectId);
    LinkedByEdge(Edges(one, now, now), same.Ends());
    LinkedByEdge(Edges(one, later, later), same.Ends());
    ExtensionIsExact(one, differ, later, later);
  }

  lemma LinkedByEdge(edges: set<Edge>, e: Edge)
    ensures e in edges ==> Linked(edges, e.0, e.1)
  {
  }
}
