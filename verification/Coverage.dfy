/** What a result did and did not cover. */
module Coverage {
  import opened Ordering

  datatype CoverageExclusion = CoverageExclusion(sourceId: string, reasonCode: string, detail: string)

  datatype SourceCoverage = SourceCoverage(sourceId: string, assetIds: seq<string>, isComplete: bool)

  datatype CoverageStatement = CoverageStatement(
    requestId: string, generatedAt: int, included: seq<SourceCoverage>, excluded: seq<CoverageExclusion>, expected: set<string>)

  function IncludedIds(s: CoverageStatement): set<string> {
    set c | c in s.included :: c.sourceId
  }

  function ExcludedIds(s: CoverageStatement): set<string> {
    set e | e in s.excluded :: e.sourceId
  }

  predicate Distinct(ids: seq<string>) {
    forall i, j :: 0 <= i < j < |ids| ==> ids[i] != ids[j]
  }

  // The checks the three constructors make; failing one raises.
  predicate Acceptable(s: CoverageStatement) {
    && (forall i :: 0 <= i < |s.excluded| ==> s.excluded[i].sourceId != [] && s.excluded[i].reasonCode != [] && s.excluded[i].detail != [])
    && (forall i :: 0 <= i < |s.included| ==>
          s.included[i].sourceId != [] && s.included[i].assetIds != [] && Distinct(s.included[i].assetIds))
    && s.requestId != [] && (s.included != [] || s.excluded != [])
    && (forall i, j :: 0 <= i < j < |s.included| ==> s.included[i].sourceId != s.included[j].sourceId)
    && (forall i, j :: 0 <= i < j < |s.excluded| ==> s.excluded[i].sourceId != s.excluded[j].sourceId)
    && IncludedIds(s) !! ExcludedIds(s) && "" !in s.expected
    && (s.expected != {} ==> IncludedIds(s) + ExcludedIds(s) <= s.expected)
  }

  predicate IsComplete(s: CoverageStatement) {
    && (s.expected == {} || IncludedIds(s) == s.expected)
    && s.excluded == [] && s.included != []
    && forall i :: 0 <= i < |s.included| ==> s.included[i].isComplete
  }

  // One of the sources included is this one, and its part is all there.
  predicate AnsweredInFull(s: CoverageStatement, sourceId: string) {
    exists i :: 0 <= i < |s.included| && s.included[i].sourceId == sourceId && s.included[i].isComplete
  }

  /** is_complete: something is included, nothing excluded, and every source that was expected or is included answered in full. */
  lemma CompleteExactly(s: CoverageStatement)
    requires Acceptable(s)
    ensures IsComplete(s) <==>
      && s.included != [] && s.excluded == []
      && (forall e :: e in s.expected ==> AnsweredInFull(s, e))
      && (forall i :: 0 <= i < |s.included| ==> AnsweredInFull(s, s.included[i].sourceId))
  {
    forall e | e in IncludedIds(s) ensures exists i :: 0 <= i < |s.included| && s.included[i].sourceId == e {
      var c :| c in s.included && c.sourceId == e;
    }
    forall e | AnsweredInFull(s, e) ensures e in IncludedIds(s) {
      var i :| 0 <= i < |s.included| && s.included[i].sourceId == e && s.included[i].isComplete;
      assert s.included[i] in s.included;
    }
  }
}
