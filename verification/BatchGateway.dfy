/** The gateway's running bounds on what a connector streams back. */
module BatchGateway {
  import opened Wrappers
  import opened Scalars
  import opened QueryPlanning

  // serialized: the payload's size, None if it has none; listed: its length if it is a list.
  datatype DataBatch = DataBatch(
    serialized: Option<nat>, byteCount: Option<nat>, listed: Option<nat>, rowCount: Option<nat>, versions: set<string>)

  datatype BatchFault = NotFiniteJson | RowCountMismatch | ByteLimitExceeded | RowLimitExceeded | VersionMissing | DeadlineExceeded | ConnectorRaised

  function Greatest(a: nat, b: nat): nat { if a >= b then a else b }

  function Given(n: Option<nat>): nat { if n.Some? then n.value else 0 }

  function BatchBytes(b: DataBatch): Option<nat> {
    if b.serialized.None? then None else Some(Greatest(b.serialized.value, Given(b.byteCount)))
  }

  function BatchRows(b: DataBatch): Option<nat> {
    if b.listed.Some? then
      if b.rowCount.Some? && b.rowCount.value != b.listed.value then None else b.listed
    else Some(Given(b.rowCount))
  }

  predicate WellFormed(b: DataBatch) {
    BatchBytes(b).Some? && BatchRows(b).Some?
  }

  /** A batch counts for no fewer bytes than its payload takes and than it says itself, and for as many rows as it lists. */
  lemma MeasuredInFull(b: DataBatch)
    ensures WellFormed(b) <==> b.serialized.Some? && (b.listed.Some? && b.rowCount.Some? ==> b.rowCount == b.listed)
    ensures WellFormed(b) ==>
      && BatchBytes(b).value >= b.serialized.value && (b.byteCount.Some? ==> BatchBytes(b).value >= b.byteCount.value)
      && (BatchBytes(b) == b.serialized || BatchBytes(b) == b.byteCount)
      && BatchRows(b) == if b.listed.Some? then b.listed else if b.rowCount.Some? then b.rowCount else Some(0)
  {
  }

  function TotalBytes(batches: seq<DataBatch>): nat
    requires forall i :: 0 <= i < |batches| ==> WellFormed(batches[i])
  {
    if batches == [] then 0
    else
      assert WellFormed(batches[|batches| - 1]);
      TotalBytes(batches[..|batches| - 1]) + BatchBytes(batches[|batches| - 1]).value
  }

  function TotalRows(batches: seq<DataBatch>): nat
    requires forall i :: 0 <= i < |batches| ==> WellFormed(batches[i])
  {
    if batches == [] then 0
    else
      assert WellFormed(batches[|batches| - 1]);
      TotalRows(batches[..|batches| - 1]) + BatchRows(batches[|batches| - 1]).value
  }

  // These batches together keep the promise: measured, within both bounds, each from the right source.
  ghost predicate WithinBounds(batches: seq<DataBatch>, sourceId: string, limit: int, maxBytes: int) {
    && (forall i :: 0 <= i < |batches| ==> WellFormed(batches[i]) && sourceId in batches[i].versions)
    && (batches != [] ==> TotalBytes(batches) <= maxBytes && TotalRows(batches) <= limit)
  }

  /** It is the same at every yield: what is within bounds was so all along. */
  lemma {:induction false} BoundsHoldThroughout(batches: seq<DataBatch>, n: nat, sourceId: string, limit: int, maxBytes: int)
    requires WithinBounds(batches, sourceId, limit, maxBytes) && n <= |batches|
    ensures WithinBounds(batches[..n], sourceId, limit, maxBytes)
    decreases |batches|
  {
    if n < |batches| {
      var before := batches[..|batches| - 1];
      assert WithinBounds(before, sourceId, limit, maxBytes);
      BoundsHoldThroughout(before, n, sourceId, limit, maxBytes);
      assert before[..n] == batches[..n];
    } else {
      assert batches[..n] == batches;
    }
  }

  // The first check the next batch fails, in the order they are made.
  function Break(yielded: seq<DataBatch>, batch: DataBatch, sourceId: string, limit: int, maxBytes: int): Option<BatchFault>
    requires forall i :: 0 <= i < |yielded| ==> WellFormed(yielded[i])
  {
    if BatchBytes(batch).None? then Some(NotFiniteJson)
    else if BatchRows(batch).None? then Some(RowCountMismatch)
    else if TotalBytes(yielded) + BatchBytes(batch).value > maxBytes then Some(ByteLimitExceeded)
    else if TotalRows(yielded) + BatchRows(batch).value > limit then Some(RowLimitExceeded)
    else if sourceId !in batch.versions then Some(VersionMissing)
    else None
  }

  /** The checks pass one more batch exactly when all batches together are still within bounds. */
  lemma OneMoreBatch(yielded: seq<DataBatch>, batch: DataBatch, sourceId: string, limit: int, maxBytes: int)
    requires WithinBounds(yielded, sourceId, limit, maxBytes)
    ensures Break(yielded, batch, sourceId, limit, maxBytes) == None <==> WithinBounds(yielded + [batch], sourceId, limit, maxBytes)
    ensures WellFormed(batch) ==>
      && (forall i :: 0 <= i <= |yielded| ==> WellFormed((yielded + [batch])[i]))
      && TotalBytes(yielded + [batch]) == TotalBytes(yielded) + BatchBytes(batch).value
      && TotalRows(yielded + [batch]) == TotalRows(yielded) + BatchRows(batch).value
  {
    assert (yielded + [batch])[..|yielded|] == yielded;
    assert forall i :: 0 <= i < |yielded| ==> (yielded + [batch])[i] == yielded[i];
    assert (yielded + [batch])[|yielded|] == batch;
  }

  /**
   * execute(): yields the longest prefix of the connector's batches that keeps within bounds, and then either ends as the
   * connector did or reports what the next batch broke.
   */
  method ExecuteBatches(batches: seq<DataBatch>, ending: Option<BatchFault>, sourceId: string, limit: int, maxBytes: int)
    returns (yielded: seq<DataBatch>, fault: Option<BatchFault>)
    ensures yielded <= batches && WithinBounds(yielded, sourceId, limit, maxBytes)
    ensures |yielded| < |batches| ==>
      && !WithinBounds(batches[..|yielded| + 1], sourceId, limit, maxBytes)
      && fault.Some? && fault == Break(yielded, batches[|yielded|], sourceId, limit, maxBytes)
    ensures |yielded| == |batches| ==> fault == ending
  {
    yielded := [];
    var totalBytes, totalRows := 0, 0;
    for i := 0 to |batches|
      invariant yielded == batches[..i] && WithinBounds(yielded, sourceId, limit, maxBytes)
      invariant totalBytes == TotalBytes(yielded) && totalRows == TotalRows(yielded)
    {
      var batch := batches[i];
      OneMoreBatch(yielded, batch, sourceId, limit, maxBytes);
      assert batches[..i + 1] == yielded + [batch];
      if BatchBytes(batch).None? {
        return yielded, Some(NotFiniteJson);
      }
      if BatchRows(batch).None? {
        return yielded, Some(RowCountMismatch);
      }
      totalBytes := totalBytes + BatchBytes(batch).value;
      totalRows := totalRows + BatchRows(batch).value;
      if totalBytes > maxBytes {
        return yielded, Some(ByteLimitExceeded);
      }
      if totalRows > limit {
        return yielded, Some(RowLimitExceeded);
      }
      if sourceId !in batch.versions {
        return yielded, Some(VersionMissing);
      }
      yielded := yielded + [batch];
    }
    fault := ending;
  }

  /** At every yield, what has reached the caller of a compiled plan is within the planner's row bound. */
  lemma PlannedRowsBounded(i: QueryIntent, c: PlanningConstraints, yielded: seq<DataBatch>, n: nat, maxBytes: int)
    requires Compile(i, c).Ok? && WithinBounds(yielded, i.sourceId, i.limit, maxBytes) && n <= |yielded|
    ensures WithinBounds(yielded[..n], i.sourceId, i.limit, maxBytes) && TotalRows(yielded[..n]) <= i.limit <= c.maxRows
  {
    BoundsHoldThroughout(yielded, n, i.sourceId, i.limit, maxBytes);
  }
}
