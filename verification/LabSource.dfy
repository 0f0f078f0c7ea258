/** The versioned, idempotent mutation source of the reference labs. */
module LabSource {
  import opened Wrappers
  import opened Scalars
  import opened Actions

  datatype MutationRequest = MutationRequest(
    actionId: string, assetId: string, operation: string,
    parameters: map<string, Scalar>, preconditions: map<string, Scalar>, idempotencyKey: string)

  function RequestOf(action: SourceActionPlan): MutationRequest {
    MutationRequest(action.actionId, action.assetId, action.operation,
                    action.parameters, action.preconditions, action.idempotencyKey)
  }

  datatype MutationReply = MutationReply(
    success: bool, postconditionsMet: bool, sourceVersion: string, alreadyApplied: bool)

  datatype ReconcileReply = ReconcileReply(applied: bool, postconditionsMet: bool, sourceVersion: string)

  // What a mutation raises: an unreadable request, or a reply that never arrives.
  datatype SourceFault = MalformedRequest | ConnectionLost

  datatype LabState = LabState(
    assetId: string, value: string, version: int, mutationCount: nat,
    idempotency: map<string, (string, MutationReply)>)

  // None where evaluating the precondition raises.
  function PreconditionsHold(s: LabState, request: MutationRequest): Option<bool> {
    if request.assetId != s.assetId then Some(false)
    else if "expectedVersion" !in request.preconditions then None
    else
      match IntOf(request.preconditions["expectedVersion"])
      case None => None
      case Some(v) =>
        if v != s.version then Some(false)
        else if "expectedValue" !in request.preconditions then None
        else Some(StrOf(request.preconditions["expectedValue"]) == s.value)
  }

  function MutateNext(s: LabState, request: MutationRequest): (LabState, Result<MutationReply, SourceFault>) {
    var refused := MutationReply(false, false, IntText(s.version), false);
    if request.idempotencyKey in s.idempotency then
      var (actionId, result) := s.idempotency[request.idempotencyKey];
      (s, Ok(if actionId != request.actionId then refused else result.(alreadyApplied := true)))
    else
      match PreconditionsHold(s, request)
      case None => (s, Err(MalformedRequest))
      case Some(false) => (s, Ok(refused))
      case Some(true) =>
        if "newValue" !in request.parameters then (s, Err(MalformedRequest))
        else
          var wanted := request.parameters["newValue"];
          var reply := MutationReply(true, wanted == Text(StrOf(wanted)), IntText(s.version + 1), false);
          (s.(value := StrOf(wanted), version := s.version + 1, mutationCount := s.mutationCount + 1,
              idempotency := s.idempotency[request.idempotencyKey := (request.actionId, reply)]),
           Ok(reply))
  }

  // The source compares the string it stored with the value it was sent, so only a string ever matches.
  predicate TextValued(action: SourceActionPlan) {
    "newValue" in action.parameters && action.parameters["newValue"].Text?
  }

  function ReconcileNext(s: LabState, actionId: string, idempotencyKey: string): ReconcileReply {
    if idempotencyKey !in s.idempotency || s.idempotency[idempotencyKey].0 != actionId then
      ReconcileReply(false, false, IntText(s.version))
    else
      var result := s.idempotency[idempotencyKey].1;
      ReconcileReply(result.success, result.postconditionsMet, result.sourceVersion)
  }

  class LabMutationConnector {
    const sourceId: string
    const assetId: string
    var value: string
    var version: int
    var mutationCount: nat
    var idempotency: map<string, (string, MutationReply)>

    constructor (sourceId: string, assetId: string, initialValue: string, version: int)
      ensures this.sourceId == sourceId
      ensures State() == LabState(assetId, initialValue, version, 0, map[])
    {
      this.sourceId, this.assetId := sourceId, assetId;
      this.value, this.version, this.mutationCount, this.idempotency := initialValue, version, 0, map[];
    }

    function State(): LabState
      reads this
    {
      LabState(assetId, value, version, mutationCount, idempotency)
    }

    method Mutate(request: MutationRequest) returns (outcome: Result<MutationReply, SourceFault>)
      modifies this
      ensures (State(), outcome) == MutateNext(old(State()), request)
    {
      var key := request.idempotencyKey;
      if key in idempotency {
        var (actionId, result) := idempotency[key];
        if actionId != request.actionId {
          return Ok(MutationReply(false, false, IntText(version), false));
        }
        return Ok(result.(alreadyApplied := true));
      }
      var valid := PreconditionsHold(State(), request);
      if valid.None? {
        return Err(MalformedRequest);
      }
      if !valid.value {
        return Ok(MutationReply(false, false, IntText(version), false));
      }
      if "newValue" !in request.parameters {
        return Err(MalformedRequest);
      }
      value := StrOf(request.parameters["newValue"]);
      version := version + 1;
      mutationCount := mutationCount + 1;
      var result := MutationReply(true, Text(value) == request.parameters["newValue"], IntText(version), false);
      idempotency := idempotency[key := (request.actionId, result)];
      return Ok(result);
    }

    method Reconcile(actionId: string, idempotencyKey: string) returns (reply: ReconcileReply)
      ensures reply == ReconcileNext(State(), actionId, idempotencyKey)
    {
      if idempotencyKey !in idempotency || idempotency[idempotencyKey].0 != actionId {
        return ReconcileReply(false, false, IntText(version));
      }
      var result := idempotency[idempotencyKey].1;
      return ReconcileReply(result.success, result.postconditionsMet, result.sourceVersion);
    }
  }

  // --- Conservation over any traffic ---

  function Serve(s: LabState, requests: seq<MutationRequest>): LabState {
    if requests == [] then s
    else MutateNext(Serve(s, requests[..|requests| - 1]), requests[|requests| - 1]).0
  }

  /** Every version step, every counted mutation and every recorded key is the same event. */
  lemma {:induction false} SourceConserves(s: LabState, requests: seq<MutationRequest>)
    ensures var t := Serve(s, requests);
      && t.version - s.version == t.mutationCount - s.mutationCount == |t.idempotency| - |s.idempotency|
      && s.version <= t.version
      && s.idempotency.Keys <= t.idempotency.Keys
      && (forall key :: key in s.idempotency ==> t.idempotency[key] == s.idempotency[key])
  {
    if requests != [] {
      SourceConserves(s, requests[..|requests| - 1]);
    }
  }

  /** A key that was recorded once never changes the source again, whoever sends it. */
  lemma {:induction false} RecordedKeyIsInert(s: LabState, requests: seq<MutationRequest>, again: MutationRequest)
    requires again.idempotencyKey in Serve(s, requests).idempotency
    ensures forall later :: requests <= later ==>
      MutateNext(Serve(s, later), again).0 == Serve(s, later)
  {
    forall later | requests <= later
      ensures again.idempotencyKey in Serve(s, later).idempotency
    {
      ServeSplits(s, requests, later[|requests|..]);
      assert later == requests + later[|requests|..];
      SourceConserves(Serve(s, requests), later[|requests|..]);
    }
  }

  /** Under a key on record its own action is answered again as it was, and any other is refused. */
  lemma RecordedKeyAnswers(s: LabState, request: MutationRequest)
    requires request.idempotencyKey in s.idempotency
    ensures var (t, outcome) := MutateNext(s, request); var (actionId, reply) := s.idempotency[request.idempotencyKey];
      && t == s && outcome.Ok?
      && (request.actionId == actionId ==> outcome.value == MutationReply(reply.success, reply.postconditionsMet, reply.sourceVersion, true))
      && (request.actionId != actionId ==> outcome.value == MutationReply(false, false, IntText(s.version), false))
  {
  }

  lemma {:induction false} ServeSplits(s: LabState, first: seq<MutationRequest>, second: seq<MutationRequest>)
    ensures Serve(s, first + second) == Serve(Serve(s, first), second)
  {
    if second == [] {
      assert first + second == first;
    } else {
      var n := |second| - 1;
      ServeSplits(s, first, second[..n]);
      assert (first + second)[..|first + second| - 1] == first + second[..n];
    }
  }
}
