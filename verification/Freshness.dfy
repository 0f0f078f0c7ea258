/** How fresh a source asset is, against a freshness objective. */
module Freshness {
  import opened Wrappers
  import opened Scalars

  datatype FreshnessBreachAction = Exclude | Degrade | Refuse

  datatype FreshnessSLO = FreshnessSLO(maxAge: int, onBreach: FreshnessBreachAction)

  datatype FreshnessObservation = FreshnessObservation(
    sourceId: string, assetId: string, observedAt: int, sourceEventTime: int, watermark: string)

  datatype FreshnessAssessment = FreshnessAssessment(
    sourceId: string, assetId: string, isFresh: bool, ageMs: int, watermark: string, action: Option<FreshnessBreachAction>)

  type Target = (string, string)

  // int() truncates toward zero; times are microseconds.
  function Milliseconds(age: int): int {
    if age < 0 then -(-age / 1000) else age / 1000
  }

  /** Whole milliseconds, cut off toward zero. */
  lemma CutTowardZero(age: int)
    ensures var ms := Milliseconds(age);
      if age >= 0 then 1000 * ms <= age < 1000 * (ms + 1) else 1000 * (ms - 1) < age <= 1000 * ms
  {
  }

  function Assess(observations: map<Target, FreshnessObservation>, target: Target, slo: FreshnessSLO, at: int): FreshnessAssessment {
    if target !in observations then FreshnessAssessment(target.0, target.1, false, -1, "missing", Some(slo.onBreach))
    else
      var age := at - observations[target].sourceEventTime;
      var isFresh := 0 <= age <= slo.maxAge;
      FreshnessAssessment(target.0, target.1, isFresh, Milliseconds(age), observations[target].watermark,
                          if isFresh then None else Some(slo.onBreach))
  }

  class FreshnessRegistry {
    var observations: map<Target, FreshnessObservation>

    constructor ()
      ensures observations == map[]
    {
      observations := map[];
    }

    /** record(): refuses exactly the observations older than what it holds; observation times never go back. */
    method Record(observation: FreshnessObservation) returns (accepted: bool)
      modifies this
      ensures var key := (observation.sourceId, observation.assetId);
        && (accepted <==> (key in old(observations) ==> old(observations)[key].observedAt <= observation.observedAt))
        && observations == (if accepted then old(observations)[key := observation] else old(observations))
      ensures forall k :: k in old(observations) ==>
        k in observations && old(observations)[k].observedAt <= observations[k].observedAt
    {
      var key := (observation.sourceId, observation.assetId);
      if key in observations && observation.observedAt < observations[key].observedAt {
        return false;
      }
      observations := observations[key := observation];
      return true;
    }
  }

  // --- Checkpoints ---

  datatype CheckpointToken = CheckpointToken(sourceId: string, streamId: string, position: string, observedAt: int, connectorVersion: string)

  datatype CheckpointError = BadPosition | VersionChanged | PositionRegressed | TimeRegressed

  class CheckpointLedger {
    var tokens: map<Target, CheckpointToken>

    constructor ()
      ensures tokens == map[]
    {
      tokens := map[];
    }

    // Every token held has an integer position.
    ghost predicate Valid()
      reads this
    {
      forall k :: k in tokens ==> ParseInt(tokens[k].position).Some?
    }

    /** record(): no stream ever moves back, in position or in time, or changes its connector version. */
    method Record(token: CheckpointToken) returns (r: Result<(), CheckpointError>)
      requires Valid()
      modifies this
      ensures Valid()
      ensures var key := (token.sourceId, token.streamId);
        && r == Admitted(old(tokens), token)
        && tokens == (if r.Ok? then old(tokens)[key := token] else old(tokens))
      ensures var key, position := (token.sourceId, token.streamId), ParseInt(token.position);
        r.Ok? <==> position.Some? && (key in old(tokens) ==>
          && token.connectorVersion == old(tokens)[key].connectorVersion
          && ParseInt(old(tokens)[key].position).value <= position.value && old(tokens)[key].observedAt <= token.observedAt)
      ensures forall k :: k in old(tokens) ==>
        && k in tokens && tokens[k].connectorVersion == old(tokens)[k].connectorVersion
        && ParseInt(old(tokens)[k].position).value <= ParseInt(tokens[k].position).value
        && old(tokens)[k].observedAt <= tokens[k].observedAt
    {
      var key := (token.sourceId, token.streamId);
      var position := ParseInt(token.position);
      if position.None? {
        return Err(BadPosition);
      }
      if key in tokens {
        var previous := tokens[key];
        if token.connectorVersion != previous.connectorVersion {
          return Err(VersionChanged);
        }
        if position.value < ParseInt(previous.position).value {
          return Err(PositionRegressed);
        }
        if token.observedAt < previous.observedAt {
          return Err(TimeRegressed);
        }
      }
      tokens := tokens[key := token];
      return Ok(());
    }
  }

  function Admitted(tokens: map<Target, CheckpointToken>, token: CheckpointToken): Result<(), CheckpointError>
    requires forall k :: k in tokens ==> ParseInt(tokens[k].position).Some?
  {
    var key := (token.sourceId, token.streamId);
    if ParseInt(token.position).None? then Err(BadPosition)
    else if key !in tokens then Ok(())
    else if token.connectorVersion != tokens[key].connectorVersion then Err(VersionChanged)
    else if ParseInt(token.position).value < ParseInt(tokens[key].position).value then Err(PositionRegressed)
    else if token.observedAt < tokens[key].observedAt then Err(TimeRegressed)
    else Ok(())
  }
}
