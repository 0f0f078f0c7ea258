/** The append-only semantic assertion graph with bitemporal validity and guarded identity. */
module AssertionGraph {
  import opened Wrappers
  import opened Models
  import opened IdentityClusters

  datatype AssertionPredicate = SameAs | NotSameAs | Mentions

  datatype SemanticAssertion = SemanticAssertion(
    assertionId: string, subjectId: string, predicate_: AssertionPredicate, objectId: string, confidence: real,
    assertedAt: int, validFrom: int, validTo: Option<int>, policyDigest: string, lineage: seq<LineageRef>)
  {
    function Ends(): Edge { (subjectId, objectId) }
  }

  datatype AssertionRetraction = AssertionRetraction(assertionId: string, retractedAt: int, reason: string)

  datatype GraphError = AlreadyExists | SemanticContradiction | UnknownAssertion | AlreadyRetracted | PredatesAssertion

  datatype Graph = Graph(
    assertions: map<string, SemanticAssertion>, retractions: map<string, AssertionRetraction>)

  // --- What is active when ---

  predicate ActiveAt(g: Graph, id: string, validAt: int, knownAt: int)
    requires id in g.assertions
  {
    var item := g.assertions[id];
    && item.assertedAt <= knownAt
    && (id !in g.retractions || knownAt < g.retractions[id].retractedAt)
    && item.validFrom <= validAt
    && (item.validTo.None? || validAt < item.validTo.value)
  }

  function Active(g: Graph, validAt: int, knownAt: int): set<SemanticAssertion> {
    set id | id in g.assertions && ActiveAt(g, id, validAt, knownAt) :: g.assertions[id]
  }

  function EndsOf(items: set<SemanticAssertion>, kind: AssertionPredicate): set<Edge> {
    set item | item in items && item.predicate_ == kind :: item.Ends()
  }

  function Ends(g: Graph, kind: AssertionPredicate, validAt: int, knownAt: int): set<Edge> {
    EndsOf(Active(g, validAt, knownAt), kind)
  }

  function Edges(g: Graph, validAt: int, knownAt: int): set<Edge> { Ends(g, SameAs, validAt, knownAt) }

  function Barriers(g: Graph, validAt: int, knownAt: int): set<Edge> { Ends(g, NotSameAs, validAt, knownAt) }

  /** No two entities asserted to be different share an identity cluster. */
  ghost predicate Consistent(g: Graph, validAt: int, knownAt: int) {
    forall b :: b in Barriers(g, validAt, knownAt) ==> !Linked(Edges(g, validAt, knownAt), b.0, b.1)
  }

  // The contradiction test of append, for one valid time and one time of knowledge.
  ghost predicate AcceptsAt(g: Graph, a: SemanticAssertion, validAt: int, knownAt: int) {
    var edges := Edges(g, validAt, knownAt);
    match a.predicate_
    case Mentions => true
    case NotSameAs => !Linked(edges, a.subjectId, a.objectId)
    case SameAs => !exists b :: b in Barriers(g, validAt, knownAt) && Across(edges, a, b)
  }

  ghost predicate Accepts(g: Graph, a: SemanticAssertion, at: int) {
    AcceptsAt(g, a, at, at)
  }

  ghost predicate Across(edges: set<Edge>, a: SemanticAssertion, b: Edge) {
    || (Linked(edges, a.subjectId, b.0) && Linked(edges, a.objectId, b.1))
    || (Linked(edges, a.objectId, b.0) && Linked(edges, a.subjectId, b.1))
  }

  function Extended(g: Graph, a: SemanticAssertion): Graph {
    g.(assertions := g.assertions[a.assertionId := a])
  }

  // --- Time only takes away, as long as nothing was asserted ahead of its time ---

  predicate NothingAhead(g: Graph, at: int) {
    forall id :: id in g.assertions ==> g.assertions[id].assertedAt <= at && g.assertions[id].validFrom <= at
  }

  // No assertion is made or becomes valid in between.
  predicate NothingStarts(g: Graph, from: int, to: int) {
    forall id :: id in g.assertions ==>
      !(from < g.assertions[id].assertedAt <= to) && !(from < g.assertions[id].validFrom <= to)
  }

  lemma LaterIsLess(g: Graph, kind: AssertionPredicate, from: int, to: int, validAt: int, knownAt: int, validLater: int, knownLater: int)
    requires NothingStarts(g, from, to) && from <= validAt <= validLater <= to && from <= knownAt <= knownLater <= to
    ensures Ends(g, kind, validLater, knownLater) <= Ends(g, kind, validAt, knownAt)
  {
  }

  /** A consistent graph stays consistent while assertions expire and retractions take effect. */
  lemma ConsistentLater(g: Graph, at: int, validAt: int, knownAt: int)
    requires NothingAhead(g, at) && at <= validAt && at <= knownAt && Consistent(g, at, at)
    ensures Consistent(g, validAt, knownAt)
  {
    var to := if validAt <= knownAt then knownAt else validAt;
    LaterIsLess(g, SameAs, at, to, at, at, validAt, knownAt);
    LaterIsLess(g, NotSameAs, at, to, at, at, validAt, knownAt);
  }

  // --- One more assertion ---

  lemma ExtendedEnds(g: Graph, a: SemanticAssertion, kind: AssertionPredicate, validAt: int, knownAt: int)
    requires a.assertionId !in g.assertions
    ensures Ends(Extended(g, a), kind, validAt, knownAt) == Ends(g, kind, validAt, knownAt)
      + if a.predicate_ == kind && ActiveAt(Extended(g, a), a.assertionId, validAt, knownAt) then {a.Ends()} else {}
  {
    var g' := Extended(g, a);
    forall e ensures e in Ends(g', kind, validAt, knownAt) <==>
      e in Ends(g, kind, validAt, knownAt) || (a.predicate_ == kind && ActiveAt(g', a.assertionId, validAt, knownAt) && e == a.Ends())
    {
      if e in Ends(g, kind, validAt, knownAt) {
        var item :| item in Active(g, validAt, knownAt) && item.predicate_ == kind && item.Ends() == e;
        var id :| id in g.assertions && ActiveAt(g, id, validAt, knownAt) && g.assertions[id] == item;
        assert ActiveAt(g', id, validAt, knownAt) && g'.assertions[id] in Active(g', validAt, knownAt);
      }
      if a.predicate_ == kind && ActiveAt(g', a.assertionId, validAt, knownAt) {
        assert g'.assertions[a.assertionId] in Active(g', validAt, knownAt);
      }
    }
  }

  lemma MergeCrosses(edges: set<Edge>, p: string, q: string, b: Edge)
    ensures Linked(edges + {(p, q)}, b.0, b.1) <==>
      || Linked(edges, b.0, b.1)
      || (Linked(edges, p, b.0) && Linked(edges, q, b.1)) || (Linked(edges, q, b.0) && Linked(edges, p, b.1))
  {
    var more := edges + {(p, q)};
    if Linked(more, b.0, b.1) {
      MergeJoinsTwo(edges, p, q, b.0, b.1);
    } else if Linked(edges, b.0, b.1) {
      LinkedMonotone(edges, more, b.0, b.1);
    } else if (Linked(edges, p, b.0) && Linked(edges, q, b.1)) || (Linked(edges, q, b.0) && Linked(edges, p, b.1)) {
      var near, far := if Linked(edges, p, b.0) && Linked(edges, q, b.1) then (p, q) else (q, p), b;
      LinkedMonotone(edges, more, near.0, b.0);
      LinkedMonotone(edges, more, near.1, b.1);
      EdgeLinks(more, (p, q), b.0);
      LinkedIsEquivalence(more, near.0, b.0, b.0);
      LinkedIsEquivalence(more, b.0, near.1, b.1);
    }
  }

  /** One more assertion leaves a graph consistent at some time exactly when it was, and the assertion, if it is active then, passes the test made then. */
  lemma ExtensionIsExact(g: Graph, a: SemanticAssertion, validAt: int, knownAt: int)
    requires a.assertionId !in g.assertions
    ensures Consistent(Extended(g, a), validAt, knownAt) <==>
      Consistent(g, validAt, knownAt) && (ActiveAt(Extended(g, a), a.assertionId, validAt, knownAt) ==> AcceptsAt(g, a, validAt, knownAt))
  {
    hide Linked, Ends;
    var edges, barriers := Edges(g, validAt, knownAt), Barriers(g, validAt, knownAt);
    ExtendedEnds(g, a, SameAs, validAt, knownAt);
    ExtendedEnds(g, a, NotSameAs, validAt, knownAt);
    forall b: Edge { MergeCrosses(edges, a.subjectId, a.objectId, b); }
    assert edges + {} == edges && barriers + {} == barriers;
  }

  /** What append lets in keeps the graph consistent: a merge adds no forbidden pair. */
  lemma AcceptedStaysConsistent(g: Graph, a: SemanticAssertion, at: int)
    requires a.assertionId !in g.assertions && Consistent(g, at, at) && Accepts(g, a, at)
    ensures Consistent(Extended(g, a), at, at)
  {
    ExtensionIsExact(g, a, at, at);
  }

  lemma RetractionStaysConsistent(g: Graph, r: AssertionRetraction, at: int)
    requires r.assertionId !in g.retractions && Consistent(g, at, at)
    ensures Consistent(g.(retractions := g.retractions[r.assertionId := r]), at, at)
  {
  }

  // --- The graph as it runs, against a clock that never goes back ---

  ghost predicate NeverBack(clock: nat -> int) {
    forall i: nat, j: nat :: i <= j ==> clock(i) <= clock(j)
  }

  ghost function Entities(g: Graph): set<string> {
    (set id | id in g.assertions :: g.assertions[id].subjectId) + (set id | id in g.assertions :: g.assertions[id].objectId)
  }

  lemma SeenEntities(g: Graph, validAt: int, knownAt: int)
    ensures Nodes(Edges(g, validAt, knownAt)) <= Entities(g)
  {
  }

  lemma SizeTellsGrowth(s: set<string>, more: set<string>)
    ensures |s + more| == |s| <==> more <= s
  {
    assert s + more == s + (more - s);
    assert |s + (more - s)| == |s| + |more - s|;
  }

  lemma OneLess(items: set<SemanticAssertion>, pending: set<SemanticAssertion>, item: SemanticAssertion)
    requires item in pending && pending <= items
    ensures EndsOf(items - (pending - {item}), SameAs)
         == EndsOf(items - pending, SameAs) + if item.predicate_ == SameAs then {item.Ends()} else {}
  {
  }

  class AssertionGraph {
    const clock: nat -> int
    var tick: nat
    var assertions: map<string, SemanticAssertion>
    var retractions: map<string, AssertionRetraction>

    constructor (clock: nat -> int)
      requires NeverBack(clock)
      ensures Valid() && Sound() && Contents() == Graph(map[], map[]) && this.clock == clock
    {
      this.clock := clock;
      tick, assertions, retractions := 0, map[], map[];
    }

    ghost predicate Valid()
      reads this
    {
      NeverBack(clock) && forall id :: id in assertions ==> assertions[id].assertionId == id
    }

    function Contents(): Graph
      reads this
    {
      Graph(assertions, retractions)
    }

    function Time(): int
      reads this
    {
      clock(tick)
    }

    /** The promise: nothing lies ahead, and identity is free of contradictions now and from now on. */
    ghost predicate Sound()
      reads this
    {
      NothingAhead(Contents(), Time()) && Consistent(Contents(), Time(), Time())
    }

    // active(): each call reads the clock for the validity time and again for the knowledge time.
    method ActiveNow() returns (items: set<SemanticAssertion>)
      modifies this`tick
      ensures tick == old(tick) + 2
      ensures items == Active(Contents(), clock(old(tick)), clock(old(tick) + 1))
    {
      items := Active(Contents(), clock(tick), clock(tick + 1));
      tick := tick + 2;
    }

    // The edges seen by the call of active() that read the clock at this tick.
    function EdgesSeen(at: nat): set<Edge>
      reads this
    {
      Edges(Contents(), clock(at), clock(at + 1))
    }

    /**
     equivalence_cluster(): terminates with a set that is closed under the edges of its last reading;
     if no assertion starts meanwhile, all of it is linked by the edges there were when it began.  If the
     clock stands still, that is exactly the cluster of the entity.
     */
    method EquivalenceCluster(entity: string) returns (cluster: set<string>)
      requires Valid()
      modifies this`tick
      ensures tick >= old(tick) + 2
      ensures entity in cluster && Closed(EdgesSeen(tick - 2), cluster)
      ensures NothingStarts(Contents(), old(Time()), Time()) ==>
        forall e :: e in cluster ==> Linked(Edges(Contents(), old(Time()), old(Time())), entity, e)
      ensures clock(old(tick)) == clock(tick) ==>
        cluster == Cluster(Edges(Contents(), Time(), Time()), entity)
    {
      ghost var universe := Entities(Contents()) + {entity};
      cluster := {entity};
      var changed := true;
      while changed
        invariant Valid() && old(tick) <= tick && entity in cluster && cluster <= universe
        invariant changed || (tick >= old(tick) + 2 && Closed(EdgesSeen(tick - 2), cluster))
        invariant Bounded(old(tick), cluster, entity)
        decreases universe - cluster, changed
      {
        cluster, changed := Pass(cluster, entity, old(tick));
      }
      if clock(old(tick)) == clock(tick) { StillCluster(old(tick), cluster, entity); }
    }

    lemma StillCluster(from: nat, cluster: set<string>, entity: string)
      requires Valid() && from + 2 <= tick && clock(from) == clock(tick)
      requires entity in cluster && Closed(EdgesSeen(tick - 2), cluster)
      requires forall e :: e in cluster ==> Linked(Edges(Contents(), clock(from), clock(from)), entity, e)
      ensures cluster == Cluster(Edges(Contents(), Time(), Time()), entity)
    {
    }

    // So far the cluster holds only what the edges of tick `from` link to the entity.
    ghost predicate Bounded(from: nat, cluster: set<string>, entity: string)
      reads this
    {
      NothingStarts(Contents(), clock(from), clock(tick)) ==>
        forall e :: e in cluster ==> Linked(Edges(Contents(), clock(from), clock(from)), entity, e)
    }

    // One round of the loop: read what is active and sweep it once.
    method Pass(start: set<string>, entity: string, ghost from: nat) returns (cluster: set<string>, changed: bool)
      requires Valid() && from <= tick && Bounded(from, start, entity)
      modifies this`tick
      ensures tick == old(tick) + 2 && Bounded(from, cluster, entity)
      ensures start <= cluster <= start + Entities(Contents()) && (changed <==> cluster != start)
      ensures !changed ==> Closed(EdgesSeen(tick - 2), cluster)
    {
      assert clock(from) <= clock(tick) <= clock(tick + 2);
      ghost var first := Edges(Contents(), clock(from), clock(from));
      SeenLater(from, tick, first);
      SeenEntities(Contents(), clock(tick), clock(tick + 1));
      var items := ActiveNow();
      cluster, changed := Sweep(start, items, first, entity);
    }

    // One pass over the active assertions.
    static method Sweep(start: set<string>, items: set<SemanticAssertion>, ghost known: set<Edge>, ghost entity: string)
      returns (cluster: set<string>, changed: bool)
      ensures start <= cluster <= start + Nodes(EndsOf(items, SameAs)) && (changed <==> cluster != start)
      ensures !changed ==> Closed(EndsOf(items, SameAs), cluster)
      ensures EndsOf(items, SameAs) <= known && (forall e :: e in start ==> Linked(known, entity, e)) ==>
        forall e :: e in cluster ==> Linked(known, entity, e)
    {
      cluster, changed := start, false;
      var pending := items;
      while pending != {}
        invariant pending <= items && start <= cluster <= start + Nodes(EndsOf(items, SameAs))
        invariant changed <==> cluster != start
        invariant !changed ==> Closed(EndsOf(items - pending, SameAs), cluster)
        invariant EndsOf(items, SameAs) <= known && (forall e :: e in start ==> Linked(known, entity, e)) ==>
          forall e :: e in cluster ==> Linked(known, entity, e)
        decreases |pending|
      {
        var item :| item in pending;
        if item.predicate_ == SameAs && (item.subjectId in cluster || item.objectId in cluster) {
          assert item.Ends() in EndsOf(items, SameAs);
          if EndsOf(items, SameAs) <= known { EdgeLinks(known, item.Ends(), entity); }
          var size := |cluster|;
          SizeTellsGrowth(cluster, {item.subjectId, item.objectId});
          cluster := cluster + {item.subjectId, item.objectId};
          changed := changed || |cluster| != size;
        }
        OneLess(items, pending, item);
        pending := pending - {item};
      }
      assert items - pending == items;
    }

    lemma SeenLater(from: nat, at: nat, first: set<Edge>)
      requires Valid() && from <= at && first == Edges(Contents(), clock(from), clock(from))
      ensures NothingStarts(Contents(), clock(from), clock(at + 2)) ==> EdgesSeen(at) <= first
    {
      assert clock(from) <= clock(at) <= clock(at + 1) <= clock(at + 2);
      if NothingStarts(Contents(), clock(from), clock(at + 2)) {
        LaterIsLess(Contents(), SameAs, clock(from), clock(at + 2), clock(from), clock(from), clock(at), clock(at + 1));
      }
    }
  
    lemma SeenEarlier(at: nat, from: int, kind: AssertionPredicate)
      requires Valid() && NothingStarts(Contents(), from, Time()) && from <= clock(at) && at + 2 <= tick
      ensures Ends(Contents(), kind, Time(), Time()) <= Ends(Contents(), kind, clock(at), clock(at + 1))
    {
      assert clock(at) <= clock(at + 1) <= Time();
      LaterIsLess(Contents(), kind, from, Time(), clock(at), clock(at + 1), Time(), Time());
    }

    /**
     append(): if no assertion starts meanwhile, lets in whatever was acceptable when the call began, and
     nothing that is unacceptable when it ends; with a clock that stands still it lets in exactly what is
     acceptable.  A sound graph stays sound, provided the assertion does not lie ahead of its time.
     */
    method Append(a: SemanticAssertion) returns (r: Result<(), GraphError>)
      requires Valid()
      modifies this`tick, this`assertions
      ensures Valid() && tick >= old(tick)
      ensures r == Err(AlreadyExists) <==> a.assertionId in old(assertions)
      ensures Contents() == if r.Ok? then Extended(old(Contents()), a) else old(Contents())
      ensures r.Err? ==> r.error == AlreadyExists || (r.error == SemanticContradiction && !a.predicate_.Mentions?)
      ensures a.assertionId !in old(assertions) && NothingStarts(old(Contents()), old(Time()), Time()) ==>
        && (Accepts(old(Contents()), a, old(Time())) ==> r.Ok?)
        && (r.Ok? ==> Accepts(old(Contents()), a, Time()))
      ensures a.assertionId !in old(assertions) && old(Time()) == Time() ==> (r.Ok? <==> Accepts(old(Contents()), a, Time()))
      ensures old(Sound()) && (r.Ok? ==> a.assertedAt <= old(Time()) && a.validFrom <= old(Time())) ==> Sound()
    {
      ghost var g, began := Contents(), Time();
      if a.assertionId in assertions {
        return Err(AlreadyExists);
      }
      var refused := false;
      if a.predicate_ == NotSameAs {
        refused := InCluster(a);
      } else if a.predicate_ == SameAs {
        refused := WouldCross(a);
      }
      if NothingAhead(g, began) && Consistent(g, began, began) { ConsistentLater(g, began, Time(), Time()); }
      if refused {
        return Err(SemanticContradiction);
      }
      assertions := assertions[a.assertionId := a];
      if NothingAhead(g, began) && Consistent(g, began, began) { AcceptedStaysConsistent(g, a, Time()); }
      return Ok(());
    }

    method InCluster(a: SemanticAssertion) returns (refused: bool)
      requires Valid() && a.predicate_ == NotSameAs
      modifies this`tick
      ensures tick >= old(tick)
      ensures NothingStarts(Contents(), old(Time()), Time()) ==>
        && (Accepts(Contents(), a, old(Time())) ==> !refused)
        && (!refused ==> Accepts(Contents(), a, Time()))
    {
      ghost var began := Time();
      var cluster := EquivalenceCluster(a.subjectId);
      refused := a.objectId in cluster;
      if NothingStarts(Contents(), began, Time()) {
        SeenEarlier(tick - 2, began, SameAs);
        assert Closed(Edges(Contents(), Time(), Time()), cluster);
      }
    }

    static predicate Crosses(item: SemanticAssertion, left: set<string>, right: set<string>) {
      item.predicate_ == NotSameAs
      && ((item.subjectId in left && item.objectId in right) || (item.subjectId in right && item.objectId in left))
    }

    // Clusters that are closed now, and barriers that include those of now, leave nothing across.
    lemma NothingCrosses(a: SemanticAssertion, left: set<string>, right: set<string>, items: set<SemanticAssertion>)
      requires a.predicate_ == SameAs && a.subjectId in left && a.objectId in right
      requires Closed(Edges(Contents(), Time(), Time()), left) && Closed(Edges(Contents(), Time(), Time()), right)
      requires Barriers(Contents(), Time(), Time()) <= EndsOf(items, NotSameAs)
      requires !exists item :: item in items && Crosses(item, left, right)
      ensures Accepts(Contents(), a, Time())
    {
    }

    method WouldCross(a: SemanticAssertion) returns (refused: bool)
      requires Valid() && a.predicate_ == SameAs
      modifies this`tick
      ensures tick >= old(tick)
      ensures NothingStarts(Contents(), old(Time()), Time()) ==>
        && (Accepts(Contents(), a, old(Time())) ==> !refused)
        && (!refused ==> Accepts(Contents(), a, Time()))
    {
      hide Linked, Across, Active, Crosses;
      ghost var began := Time();
      ghost var first := Edges(Contents(), began, began);
      var left := EquivalenceCluster(a.subjectId);
      ghost var leftSeen, second := tick - 2, Time();
      var right := EquivalenceCluster(a.objectId);
      ghost var rightSeen := tick - 2;
      ghost var checked := tick;
      var items := ActiveNow();
      refused := exists item :: item in items && Crosses(item, left, right);
      if NothingStarts(Contents(), began, Time()) {
        assert began <= second <= clock(checked) <= clock(checked + 1) <= Time();
        LaterIsLess(Contents(), SameAs, began, Time(), began, began, second, second);
        SeenEarlier(leftSeen, began, SameAs);
        SeenEarlier(rightSeen, began, SameAs);
        SeenEarlier(checked, began, NotSameAs);
        LaterIsLess(Contents(), NotSameAs, began, Time(), began, began, clock(checked), clock(checked + 1));
        if refused {
          forall e | e in right ensures Linked(first, a.objectId, e) {
            LinkedMonotone(Edges(Contents(), second, second), first, a.objectId, e);
          }
          SomethingCrosses(Contents(), a, began, left, right, items);
        } else {
          NothingCrosses(a, left, right, items);
        }
      }
    }

    static lemma SomethingCrosses(g: Graph, a: SemanticAssertion, at: int, left: set<string>, right: set<string>, items: set<SemanticAssertion>)
      requires a.predicate_ == SameAs && EndsOf(items, NotSameAs) <= Barriers(g, at, at)
      requires forall e :: e in left ==> Linked(Edges(g, at, at), a.subjectId, e)
      requires forall e :: e in right ==> Linked(Edges(g, at, at), a.objectId, e)
      requires exists item :: item in items && Crosses(item, left, right)
      ensures !Accepts(g, a, at)
    {
      var item :| item in items && Crosses(item, left, right);
      assert item.Ends() in EndsOf(items, NotSameAs);
      assert Across(Edges(g, at, at), a, item.Ends());
    }

    /** retract(): only ever takes an assertion away, so a sound graph stays sound. */
    method Retract(retraction: AssertionRetraction) returns (r: Result<(), GraphError>)
      requires Valid()
      modifies this`retractions
      ensures Valid()
      ensures var id := retraction.assertionId;
        r == if id !in assertions then Err(UnknownAssertion)
             else if id in old(retractions) then Err(AlreadyRetracted)
             else if retraction.retractedAt < assertions[id].assertedAt then Err(PredatesAssertion)
             else Ok(())
      ensures retractions ==
        if r.Ok? then old(retractions)[retraction.assertionId := retraction] else old(retractions)
      ensures old(Sound()) ==> Sound()
    {
      if retraction.assertionId !in assertions {
        return Err(UnknownAssertion);
      }
      if retraction.assertionId in retractions {
        return Err(AlreadyRetracted);
      }
      if retraction.retractedAt < assertions[retraction.assertionId].assertedAt {
        return Err(PredatesAssertion);
      }
      if Sound() { RetractionStaysConsistent(Contents(), retraction, Time()); }
      retractions := retractions[retraction.assertionId := retraction];
      return Ok(());
    }
  }
}
