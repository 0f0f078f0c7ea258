/** Human-governed semantic mappings, and the quarantine of mappings whose schema drifted. */
module Governance {
  import opened Wrappers
  import opened Ordering
  import opened Models

  datatype SemanticMappingCandidate = SemanticMappingCandidate(
    mappingId: string, conceptId: string, sourceId: string, assetId: string, fieldPath: string, confidence: real,
    schemaDigest: string, proposedAt: int, rationale: string, lineage: seq<LineageRef>)

  // A review approves or rejects, and names a human.
  datatype MappingReview = MappingReview(mappingId: string, approve: bool, reviewedBy: string, reviewedAt: int, reason: string)

  datatype MappingDrift = MappingDrift(
    mappingId: string, sourceId: string, assetId: string, expectedSchemaDigest: string, observedSchemaDigest: string,
    detectedAt: int)

  datatype RegistryError = MappingExists | UnknownMapping | AlreadyReviewed | PredatesProposal

  datatype Registry = Registry(
    candidates: map<string, SemanticMappingCandidate>, reviews: map<string, MappingReview>, drift: map<string, MappingDrift>)

  predicate ApprovedId(g: Registry, id: string, includeQuarantined: bool) {
    id in g.candidates && id in g.reviews && g.reviews[id].approve && (includeQuarantined || id !in g.drift)
  }

  /** approved(): the ids of the approved mappings, in order; quarantined ones only when asked for. */
  function ApprovedIds(g: Registry, includeQuarantined: bool): (ids: seq<string>)
    ensures forall id :: id in ids <==> ApprovedId(g, id, includeQuarantined)
    ensures SortedBy(ids, StringLeq)
    ensures forall i, j :: 0 <= i < j < |ids| ==> ids[i] != ids[j]
  {
    StringOrder();
    SortSet((set id | id in g.candidates && ApprovedId(g, id, includeQuarantined)), StringLeq)
  }

  function OfConcept(g: Registry, ids: seq<string>, conceptId: string): (r: seq<string>)
    requires forall id :: id in ids ==> id in g.candidates
    ensures forall id :: id in r <==> id in ids && g.candidates[id].conceptId == conceptId
    ensures (forall i, j :: 0 <= i < j < |ids| ==> ids[i] != ids[j]) ==> forall i, j :: 0 <= i < j < |r| ==> r[i] != r[j]
  {
    if ids == [] then []
    else
      assert forall id :: id in ids <==> id == ids[0] || id in ids[1..];
      (if g.candidates[ids[0]].conceptId == conceptId then [ids[0]] else []) + OfConcept(g, ids[1..], conceptId)
  }

  /** approved_for(): the approved, unquarantined mappings of one concept. */
  function ApprovedFor(g: Registry, conceptId: string): (ids: seq<string>)
    ensures forall id :: id in ids <==> ApprovedId(g, id, false) && g.candidates[id].conceptId == conceptId
    ensures forall i, j :: 0 <= i < j < |ids| ==> ids[i] != ids[j]
  {
    OfConcept(g, ApprovedIds(g, false), conceptId)
  }

  // A mapping drifts when it was approved for this asset under another schema.
  predicate Drifts(g: Registry, id: string, sourceId: string, assetId: string, observed: string) {
    && ApprovedId(g, id, true) && g.candidates[id].sourceId == sourceId
    && g.candidates[id].assetId == assetId && g.candidates[id].schemaDigest != observed
  }

  function DriftOf(g: Registry, id: string, observed: string, at: int): MappingDrift
    requires id in g.candidates
  {
    var c := g.candidates[id];
    MappingDrift(id, c.sourceId, c.assetId, c.schemaDigest, observed, at)
  }

  // The drift table once these mappings have been compared with the observed schema.
  function WithDrift(g: Registry, ids: seq<string>, sourceId: string, assetId: string, observed: string, at: int): map<string, MappingDrift>
  {
    if ids == [] then g.drift
    else
      var before := WithDrift(g, ids[..|ids| - 1], sourceId, assetId, observed, at);
      var id := ids[|ids| - 1];
      if Drifts(g, id, sourceId, assetId, observed) then before[id := DriftOf(g, id, observed, at)] else before
  }

  function DriftFound(g: Registry, ids: seq<string>, sourceId: string, assetId: string, observed: string, at: int): seq<MappingDrift>
  {
    if ids == [] then []
    else
      var id := ids[|ids| - 1];
      DriftFound(g, ids[..|ids| - 1], sourceId, assetId, observed, at)
      + if Drifts(g, id, sourceId, assetId, observed) then [DriftOf(g, id, observed, at)] else []
  }

  /** It gains exactly the drifting mappings, each with the schema it was approved for and the one observed. */
  lemma {:induction false} WithDriftFacts(g: Registry, ids: seq<string>, sourceId: string, assetId: string, observed: string, at: int)
    ensures var d := WithDrift(g, ids, sourceId, assetId, observed, at);
      && (forall id :: id in d <==> id in g.drift || (id in ids && Drifts(g, id, sourceId, assetId, observed)))
      && (forall id :: id in d ==>
            d[id] == if id in ids && Drifts(g, id, sourceId, assetId, observed) then DriftOf(g, id, observed, at) else g.drift[id])
  {
    if ids != [] {
      WithDriftFacts(g, ids[..|ids| - 1], sourceId, assetId, observed, at);
      assert ids == ids[..|ids| - 1] + [ids[|ids| - 1]];
    }
  }

  // Approved, for this asset, and made for another schema than the one observed.
  predicate MadeForAnother(g: Registry, id: string, sourceId: string, assetId: string, observed: string) {
    && id in g.candidates && id in g.reviews && g.reviews[id].approve
    && g.candidates[id].sourceId == sourceId && g.candidates[id].assetId == assetId && g.candidates[id].schemaDigest != observed
  }

  predicate SaysSo(g: Registry, m: MappingDrift, sourceId: string, assetId: string, observed: string, at: int) {
    && MadeForAnother(g, m.mappingId, sourceId, assetId, observed)
    && m == MappingDrift(m.mappingId, sourceId, assetId, g.candidates[m.mappingId].schemaDigest, observed, at)
  }

  lemma {:induction false} FoundAre(g: Registry, ids: seq<string>, sourceId: string, assetId: string, observed: string, at: int, m: MappingDrift)
    ensures m in DriftFound(g, ids, sourceId, assetId, observed, at) <==>
      exists id :: id in ids && Drifts(g, id, sourceId, assetId, observed) && m == DriftOf(g, id, observed, at)
  {
    if ids != [] {
      FoundAre(g, ids[..|ids| - 1], sourceId, assetId, observed, at, m);
      assert ids == ids[..|ids| - 1] + [ids[|ids| - 1]];
    }
  }

  /** Comparing with the observed schema quarantines and reports exactly the mappings made for another one. */
  lemma QuarantinesExactly(g: Registry, sourceId: string, assetId: string, observed: string, at: int)
    ensures var d, found := WithDrift(g, ApprovedIds(g, true), sourceId, assetId, observed, at),
                            DriftFound(g, ApprovedIds(g, true), sourceId, assetId, observed, at);
      && (forall id :: id in d <==> id in g.drift || MadeForAnother(g, id, sourceId, assetId, observed))
      && (forall id :: id in d && MadeForAnother(g, id, sourceId, assetId, observed) ==>
            d[id] == MappingDrift(id, sourceId, assetId, g.candidates[id].schemaDigest, observed, at))
      && (forall id :: id in d && !MadeForAnother(g, id, sourceId, assetId, observed) ==> d[id] == g.drift[id])
      && (forall m :: m in found <==> SaysSo(g, m, sourceId, assetId, observed, at))
  {
    hide WithDrift, DriftFound;
    WithDriftFacts(g, ApprovedIds(g, true), sourceId, assetId, observed, at);
    forall m { FoundAre(g, ApprovedIds(g, true), sourceId, assetId, observed, at, m); }
    forall id ensures id in ApprovedIds(g, true) && Drifts(g, id, sourceId, assetId, observed) <==> MadeForAnother(g, id, sourceId, assetId, observed) {}
  }

  lemma NextDrift(g: Registry, ids: seq<string>, i: nat, sourceId: string, assetId: string, observed: string, at: int)
    requires i < |ids|
    ensures var before := WithDrift(g, ids[..i], sourceId, assetId, observed, at);
      WithDrift(g, ids[..i + 1], sourceId, assetId, observed, at)
      == if Drifts(g, ids[i], sourceId, assetId, observed) then before[ids[i] := DriftOf(g, ids[i], observed, at)] else before
    ensures DriftFound(g, ids[..i + 1], sourceId, assetId, observed, at)
      == DriftFound(g, ids[..i], sourceId, assetId, observed, at)
         + if Drifts(g, ids[i], sourceId, assetId, observed) then [DriftOf(g, ids[i], observed, at)] else []
  {
    assert ids[..i + 1][..i] == ids[..i];
  }

  lemma OnlyApprovedDrift(g: Registry, ids: seq<string>, sourceId: string, assetId: string, observed: string, at: int)
    requires forall id :: id in g.drift ==> ApprovedId(g, id, true)
    ensures forall id :: id in WithDrift(g, ids, sourceId, assetId, observed, at) ==> ApprovedId(g, id, true)
  {
  }

  // --- The registry's operations, as changes of what it holds ---

  datatype Change =
    | Propose(candidate: SemanticMappingCandidate)
    | Review(review: MappingReview)
    | Observe(sourceId: string, assetId: string, observed: string, at: int)

  ghost predicate Changed(g: Registry, change: Change, g': Registry) {
    match change
    case Propose(c) => g' == if c.mappingId in g.candidates then g else g.(candidates := g.candidates[c.mappingId := c])
    case Review(r) =>
      g' == if r.mappingId in g.candidates && r.mappingId !in g.reviews && g.candidates[r.mappingId].proposedAt <= r.reviewedAt
            then g.(reviews := g.reviews[r.mappingId := r]) else g
    case Observe(source, asset, observed, at) =>
      && g'.candidates == g.candidates && g'.reviews == g.reviews
      && forall id :: id in g'.drift <==> id in g.drift || Drifts(g, id, source, asset, observed)
  }

  /** Comparing all approved mappings with the observed schema quarantines exactly those that drift from it. */
  lemma ComparisonObserves(g: Registry, sourceId: string, assetId: string, observed: string, at: int)
    ensures Changed(g, Observe(sourceId, assetId, observed, at),
                    g.(drift := WithDrift(g, ApprovedIds(g, true), sourceId, assetId, observed, at)))
  {
    WithDriftFacts(g, ApprovedIds(g, true), sourceId, assetId, observed, at);
  }

  class SemanticMappingRegistry {
    var candidates: map<string, SemanticMappingCandidate>
    var reviews: map<string, MappingReview>
    var drift: map<string, MappingDrift>

    constructor ()
      ensures Valid() && Contents() == Registry(map[], map[], map[])
    {
      candidates, reviews, drift := map[], map[], map[];
    }

    function Contents(): Registry
      reads this
    {
      Registry(candidates, reviews, drift)
    }

    // Only what was proposed is reviewed, only what was approved drifts.
    ghost predicate Valid()
      reads this
    {
      && (forall id :: id in candidates ==> candidates[id].mappingId == id)
      && reviews.Keys <= candidates.Keys
      && (forall id :: id in drift ==> ApprovedId(Contents(), id, true))
    }

    method Propose(candidate: SemanticMappingCandidate) returns (r: Result<(), RegistryError>)
      requires Valid()
      modifies this`candidates
      ensures Valid()
      ensures r == if candidate.mappingId in old(candidates) then Err(MappingExists) else Ok(())
      ensures candidates == if r.Ok? then old(candidates)[candidate.mappingId := candidate] else old(candidates)
      ensures Changed(old(Contents()), Change.Propose(candidate), Contents())
    {
      if candidate.mappingId in candidates {
        return Err(MappingExists);
      }
      candidates := candidates[candidate.mappingId := candidate];
      return Ok(());
    }

    method Review(review: MappingReview) returns (r: Result<(), RegistryError>)
      requires Valid()
      modifies this`reviews
      ensures Valid()
      ensures r == if review.mappingId !in candidates then Err(UnknownMapping)
                   else if review.mappingId in old(reviews) then Err(AlreadyReviewed)
                   else if review.reviewedAt < candidates[review.mappingId].proposedAt then Err(PredatesProposal)
                   else Ok(())
      ensures reviews == if r.Ok? then old(reviews)[review.mappingId := review] else old(reviews)
      ensures Changed(old(Contents()), Change.Review(review), Contents())
    {
      if review.mappingId !in candidates {
        return Err(UnknownMapping);
      }
      if review.mappingId in reviews {
        return Err(AlreadyReviewed);
      }
      if review.reviewedAt < candidates[review.mappingId].proposedAt {
        return Err(PredatesProposal);
      }
      reviews := reviews[review.mappingId := review];
      return Ok(());
    }

    /** detect_drift(): quarantines exactly the approved mappings of the asset made for another schema. */
    method DetectDrift(sourceId: string, assetId: string, observed: string, at: int) returns (found: seq<MappingDrift>)
      requires Valid()
      modifies this`drift
      ensures Valid() && candidates == old(candidates) && reviews == old(reviews)
      ensures drift == WithDrift(old(Contents()), ApprovedIds(old(Contents()), true), sourceId, assetId, observed, at)
      ensures found == DriftFound(old(Contents()), ApprovedIds(old(Contents()), true), sourceId, assetId, observed, at)
      ensures Changed(old(Contents()), Observe(sourceId, assetId, observed, at), Contents())
    {
      ghost var g := Contents();
      var ids := ApprovedIds(Contents(), true);
      found := CompareSchemas(ids, sourceId, assetId, observed, at);
      OnlyApprovedDrift(g, ids, sourceId, assetId, observed, at);
      ComparisonObserves(g, sourceId, assetId, observed, at);
    }

    method CompareSchemas(ids: seq<string>, sourceId: string, assetId: string, observed: string, at: int)
      returns (found: seq<MappingDrift>)
      requires forall i :: 0 <= i < |ids| ==> ApprovedId(Contents(), ids[i], true)
      modifies this`drift
      ensures drift == WithDrift(old(Contents()), ids, sourceId, assetId, observed, at)
      ensures found == DriftFound(old(Contents()), ids, sourceId, assetId, observed, at)
    {
      found := [];
      ghost var g := Contents();
      for i := 0 to |ids|
        invariant drift == WithDrift(g, ids[..i], sourceId, assetId, observed, at)
        invariant found == DriftFound(g, ids[..i], sourceId, assetId, observed, at)
      {
        NextDrift(g, ids, i, sourceId, assetId, observed, at);
        var candidate := candidates[ids[i]];
        if candidate.sourceId == sourceId && candidate.assetId == assetId && candidate.schemaDigest != observed {
          var entry := MappingDrift(ids[i], sourceId, assetId, candidate.schemaDigest, observed, at);
          drift := drift[ids[i] := entry];
          found := found + [entry];
        }
      }
      assert ids[..|ids|] == ids;
    }
  }

  // --- Quarantine is for ever ---

  ghost predicate Evolved(states: seq<Registry>, changes: seq<Change>) {
    |states| == |changes| + 1 && forall i :: 0 <= i < |changes| ==> Changed(states[i], changes[i], states[i + 1])
  }

  /** A mapping once rejected or quarantined is never routable again, and an approval is never rewritten. */
  lemma {:induction false} DecisionsAreFinal(states: seq<Registry>, changes: seq<Change>, i: nat, j: nat, id: string)
    requires Evolved(states, changes) && i <= j < |states| && id in states[i].candidates
    ensures id in states[j].candidates && states[j].candidates[id] == states[i].candidates[id]
    ensures id in states[i].reviews ==> id in states[j].reviews && states[j].reviews[id] == states[i].reviews[id]
    ensures id in states[i].reviews && !ApprovedId(states[i], id, false) ==> !ApprovedId(states[j], id, false)
  {
    if i < j {
      DecisionsAreFinal(states, changes, i, j - 1, id);
      assert Changed(states[j - 1], changes[j - 1], states[j]);
    }
  }
}
