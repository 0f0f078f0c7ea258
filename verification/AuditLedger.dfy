/** The append-only audit ledger every gateway writes to. */
module AuditLedger {
  import opened HashChain
  import opened Scalars

  datatype AuditBody = AuditBody(
    eventType: string, actionId: string, occurredAt: int, attributes: map<string, Scalar>)

  type AuditDigest = Digest<AuditBody>
  type AuditEntry = Entry<AuditBody>

  function Audited(log: seq<AuditEntry>, body: AuditBody): seq<AuditEntry> {
    Append(log, |log| + 1, body)
  }

  class ActionAuditLedger {
    var entries: seq<AuditEntry>

    constructor ()
      ensures entries == []
    {
      entries := [];
    }

    method Append(eventType: string, actionId: string, occurredAt: int, attributes: map<string, Scalar>)
      returns (digest: AuditDigest)
      modifies this
      ensures entries == Audited(old(entries), AuditBody(eventType, actionId, occurredAt, attributes))
      ensures digest == Head(entries)
      ensures ChainOk(entries) <==> old(ChainOk(entries))
    {
      var previous := if entries == [] then Genesis else entries[|entries| - 1].digest;
      var body := AuditBody(eventType, actionId, occurredAt, attributes);
      var entry := Entry(|entries| + 1, body, previous, Link(|entries| + 1, body, previous));
      AppendKeepsChain(entries, |entries| + 1, body);
      entries := entries + [entry];
      digest := entry.digest;
    }

    method Verify() returns (intact: bool)
      ensures intact <==> ChainOk(entries)
    {
      var previous: AuditDigest := Genesis;
      for i := 0 to |entries|
        invariant previous == Before(entries, i)
        invariant forall j :: 0 <= j < i ==> LinkOk(entries, j)
      {
        var entry := entries[i];
        if entry.previous != previous || entry.digest != Link(entry.sequence, entry.body, previous) {
          assert !LinkOk(entries, i);
          return false;
        }
        previous := entry.digest;
      }
      return true;
    }
  }
}
