/** Bounded query plans, and the field and relationship policy that admits them. */
module QueryPlanning {
  import opened Wrappers
  import opened Scalars

  datatype RelationshipRef = RelationshipRef(leftAsset: string, leftField: string, rightAsset: string, rightField: string)
  {
    function Id(): string { leftAsset + "." + leftField + "->" + rightAsset + "." + rightField }
  }

  datatype QueryIntent = QueryIntent(
    sourceId: string, assetIds: seq<string>, fields: map<string, seq<string>>, filters: map<string, map<string, Scalar>>,
    relationships: seq<RelationshipRef>, limit: int, deadlineMs: int, purpose: string)

  datatype PlanningConstraints = PlanningConstraints(
    allowedFields: map<string, set<string>>, allowedRelationships: set<string>,
    maxAssets: int, maxRows: int, maxDeadlineMs: int)

  datatype BoundedQueryPlan = BoundedQueryPlan(intent: QueryIntent, estimatedRows: int)

  datatype PlanError =
    | IncompleteIntent
    | AssetBoundExceeded
    | RowBoundExceeded
    | DeadlineBoundExceeded
    | FieldScopeIncomplete
    | FieldNotAuthorized
    | FilterOutsideAssetScope
    | FilterFieldNotAuthorized
    | RelationshipNotAuthorized
    | RelationshipOutsideAssetScope

  function Names(s: seq<string>): set<string> {
    set x | x in s
  }

  function AllowedOf(c: PlanningConstraints, assetId: string): set<string> {
    if assetId in c.allowedFields then c.allowedFields[assetId] else {}
  }

  // The first relationship that is not authorized, or that leaves the assets.
  function RelationshipFault(relationships: seq<RelationshipRef>, assetIds: seq<string>, c: PlanningConstraints): Option<PlanError> {
    if relationships == [] then None
    else
      var r := relationships[0];
      if r.Id() !in c.allowedRelationships then Some(RelationshipNotAuthorized)
      else if r.leftAsset !in assetIds || r.rightAsset !in assetIds then Some(RelationshipOutsideAssetScope)
      else RelationshipFault(relationships[1..], assetIds, c)
  }

  function Compile(i: QueryIntent, c: PlanningConstraints): Result<BoundedQueryPlan, PlanError> {
    if i.sourceId == [] || i.assetIds == [] || i.purpose == [] then Err(IncompleteIntent)
    else if |i.assetIds| > c.maxAssets then Err(AssetBoundExceeded)
    else if i.limit <= 0 || i.limit > c.maxRows then Err(RowBoundExceeded)
    else if i.deadlineMs <= 0 || i.deadlineMs > c.maxDeadlineMs then Err(DeadlineBoundExceeded)
    else if i.fields.Keys != Names(i.assetIds) then Err(FieldScopeIncomplete)
    else if exists a :: a in i.fields && !(Names(i.fields[a]) <= AllowedOf(c, a)) then Err(FieldNotAuthorized)
    else if !(i.filters.Keys <= Names(i.assetIds)) then Err(FilterOutsideAssetScope)
    else if exists a :: a in i.filters && !(i.filters[a].Keys <= AllowedOf(c, a)) then Err(FilterFieldNotAuthorized)
    else
      match RelationshipFault(i.relationships, i.assetIds, c)
      case Some(fault) => Err(fault)
      case None => Ok(BoundedQueryPlan(i, i.limit))
  }

  // --- Requests ---

  datatype Param<T> = Absent | Malformed | Given(value: T)

  datatype QueryShape = QueryShape(
    selectByAsset: Param<map<string, seq<string>>>, whereByAsset: Param<map<string, Param<map<string, Scalar>>>>,
    relationships: Param<seq<string>>)

  datatype QueryRequest = QueryRequest(
    sourceId: string, assetIds: seq<string>, plan: QueryShape, limit: int, deadlineMs: int, purpose: string)

  // The checks the request's constructor makes.
  predicate ValidRequest(r: QueryRequest) {
    && r.sourceId != [] && r.assetIds != [] && "" !in r.assetIds && r.limit > 0 && r.deadlineMs > 0 && Strip(r.purpose) != []
  }

  function RelationshipIds(relationships: seq<RelationshipRef>): seq<string> {
    seq(|relationships|, i requires 0 <= i < |relationships| => relationships[i].Id())
  }

  function ShapeOf(i: QueryIntent): QueryShape {
    QueryShape(Given(i.fields), Given(map a | a in i.filters :: Given(i.filters[a])), Given(RelationshipIds(i.relationships)))
  }

  /** to_query_request(); None where the request's constructor raises. */
  function ToQueryRequest(plan: BoundedQueryPlan): Option<QueryRequest> {
    var i := plan.intent;
    var r := QueryRequest(i.sourceId, i.assetIds, ShapeOf(i), i.limit, i.deadlineMs, i.purpose);
    if ValidRequest(r) then Some(r) else None
  }

  // --- The policy ---

  datatype Capability = Query | OtherCapability

  datatype PolicyDecision = PolicyDecision(allowed: bool, reasonCode: string)

  datatype QueryAccessGrant = QueryAccessGrant(assetFields: map<string, set<string>>, relationships: set<string>)

  type GrantKey = (string, string, string, string)

  datatype Refusal = GrantMissing | AssetRefused | ShapeInvalid | FieldRefused | RelationshipRefused | FilterFieldRefused

  // The first refusal of the query-shape checks.
  function ShapeRefusal(assetIds: seq<string>, shape: QueryShape, grant: QueryAccessGrant): Option<Refusal> {
    var assets := Names(assetIds);
    var select := if shape.selectByAsset.Absent? then Given(map[]) else shape.selectByAsset;
    var wheres := if shape.whereByAsset.Absent? then Given(map[]) else shape.whereByAsset;
    var related := if shape.relationships.Absent? then Given([]) else shape.relationships;
    if !(assets <= grant.assetFields.Keys) then Some(AssetRefused)
    else if !select.Given? || select.value.Keys != assets then Some(ShapeInvalid)
    else if exists a :: a in select.value && !(Names(select.value[a]) <= grant.assetFields[a]) then Some(FieldRefused)
    else if !related.Given? || !(Names(related.value) <= grant.relationships) then Some(RelationshipRefused)
    else if !wheres.Given? || !(wheres.value.Keys <= assets) then Some(ShapeInvalid)
    else if exists a :: a in wheres.value && !(wheres.value[a].Given? && wheres.value[a].value.Keys <= grant.assetFields[a]) then
      Some(FilterFieldRefused)
    else None
  }

  // evaluate(): the base decision, or the refusal that replaces it.
  function Evaluate(base: PolicyDecision, capability: Capability, grants: map<GrantKey, QueryAccessGrant>, key: GrantKey, r: QueryRequest)
    : Result<PolicyDecision, Refusal>
  {
    if !base.allowed || capability != Query then Ok(base)
    else if key !in grants then Err(GrantMissing)
    else
      match ShapeRefusal(r.assetIds, r.plan, grants[key])
      case Some(refusal) => Err(refusal)
      case None => Ok(base)
  }

  // --- Planner and policy agree ---

  // Everything the intent touches, the grant names.
  predicate Grants(grant: QueryAccessGrant, i: QueryIntent) {
    && (forall a :: a in i.assetIds ==> a in grant.assetFields)
    && (forall a :: a in i.fields && a in grant.assetFields ==> forall f :: f in i.fields[a] ==> f in grant.assetFields[a])
    && (forall a :: a in i.filters && a in grant.assetFields ==> forall f :: f in i.filters[a] ==> f in grant.assetFields[a])
    && (forall r :: r in i.relationships ==> r.Id() in grant.relationships)
  }

  lemma {:induction false} NoRelationshipFault(relationships: seq<RelationshipRef>, assetIds: seq<string>, c: PlanningConstraints)
    ensures RelationshipFault(relationships, assetIds, c).None? <==>
      forall r :: r in relationships ==> r.Id() in c.allowedRelationships && r.leftAsset in assetIds && r.rightAsset in assetIds
  {
    if relationships != [] {
      NoRelationshipFault(relationships[1..], assetIds, c);
    }
  }

  /** A compiled plan keeps to its assets, to the constraints' fields and relationships, and within every bound. */
  lemma CompiledPlansAreBounded(i: QueryIntent, c: PlanningConstraints)
    requires Compile(i, c).Ok?
    ensures Compile(i, c).value.intent == i && Compile(i, c).value.estimatedRows == i.limit
    ensures 0 < |i.assetIds| <= c.maxAssets && 0 < i.limit <= c.maxRows && 0 < i.deadlineMs <= c.maxDeadlineMs
    ensures forall a :: a in i.fields <==> a in i.assetIds
    ensures forall a, f :: a in i.fields && f in i.fields[a] ==> f in AllowedOf(c, a)
    ensures forall a, f :: a in i.filters && f in i.filters[a] ==> a in i.assetIds && f in AllowedOf(c, a)
    ensures forall r :: r in i.relationships ==> r.Id() in c.allowedRelationships && r.leftAsset in i.assetIds && r.rightAsset in i.assetIds
  {
    NoRelationshipFault(i.relationships, i.assetIds, c);
    forall a, f | a in i.fields && f in i.fields[a] ensures f in AllowedOf(c, a) { assert f in Names(i.fields[a]); }
    forall a | a in i.fields || a in i.assetIds ensures a in i.fields <==> a in i.assetIds { assert a in Names(i.assetIds) <==> a in i.assetIds; }
    forall a, f | a in i.filters && f in i.filters[a] ensures a in i.assetIds && f in AllowedOf(c, a) { assert a in Names(i.assetIds); }
  }

  // Everything the planner asks of an intent.
  ghost predicate Plannable(i: QueryIntent, c: PlanningConstraints) {
    && i.sourceId != "" && i.assetIds != [] && i.purpose != ""
    && |i.assetIds| <= c.maxAssets && 0 < i.limit <= c.maxRows && 0 < i.deadlineMs <= c.maxDeadlineMs
    && (forall a :: a in i.fields <==> a in i.assetIds) && (forall a :: a in i.filters ==> a in i.assetIds)
    && (forall a, f :: a in i.fields && f in i.fields[a] ==> a in c.allowedFields && f in c.allowedFields[a])
    && (forall a, f :: a in i.filters && f in i.filters[a] ==> a in c.allowedFields && f in c.allowedFields[a])
    && (forall r :: r in i.relationships ==> r.Id() in c.allowedRelationships && r.leftAsset in i.assetIds && r.rightAsset in i.assetIds)
  }

  /** An intent compiles exactly if it is complete, within all three bounds, and keeps to the constraints and its own assets. */
  lemma CompilesExactly(i: QueryIntent, c: PlanningConstraints)
    ensures Compile(i, c).Ok? <==> Plannable(i, c)
  {
    NoRelationshipFault(i.relationships, i.assetIds, c);
    if Compile(i, c).Ok? { CompiledPlansAreBounded(i, c); }
    if Plannable(i, c) {
      assert i.fields.Keys == Names(i.assetIds) && i.filters.Keys <= Names(i.assetIds);
      forall a | a in i.fields ensures Names(i.fields[a]) <= AllowedOf(c, a) {}
      forall a | a in i.filters ensures i.filters[a].Keys <= AllowedOf(c, a) {}
    }
  }

  /** A compiled plan becomes a request unless an asset id is empty or the purpose is only white space: the planner checks neither. */
  lemma WhenPlansBecomeRequests(i: QueryIntent, c: PlanningConstraints)
    requires Compile(i, c).Ok?
    ensures ToQueryRequest(Compile(i, c).value).Some? <==> "" !in i.assetIds && Strip(i.purpose) != []
  {
  }

  /** A compiled request is allowed exactly when the base policy allows it and the grant names everything it touches. */
  lemma PlannedRequestsAllowed(i: QueryIntent, c: PlanningConstraints, base: PolicyDecision, grants: map<GrantKey, QueryAccessGrant>, key: GrantKey)
    requires Compile(i, c).Ok? && ToQueryRequest(Compile(i, c).value).Some?
    ensures Evaluate(base, Query, grants, key, ToQueryRequest(Compile(i, c).value).value) == Ok(PolicyDecision(true, base.reasonCode))
      <==> base.allowed && key in grants && Grants(grants[key], i)
  {
    CompiledPlansAreBounded(i, c);
    if base.allowed && key in grants {
      PlannedShape(i, grants[key]);
    }
  }

  lemma PlannedShape(i: QueryIntent, grant: QueryAccessGrant)
    requires (forall a :: a in i.fields <==> a in i.assetIds) && (forall a :: a in i.filters ==> a in i.assetIds)
    ensures ShapeRefusal(i.assetIds, ShapeOf(i), grant).None? <==> Grants(grant, i)
  {
    var ids := RelationshipIds(i.relationships);
    assert i.fields.Keys == Names(i.assetIds) && i.filters.Keys <= Names(i.assetIds);
    assert Names(ids) <= grant.relationships <==> forall r :: r in i.relationships ==> r.Id() in grant.relationships by {
      forall r | r in i.relationships ensures r.Id() in Names(ids) {
        var k :| 0 <= k < |i.relationships| && i.relationships[k] == r;
        assert ids[k] == r.Id();
      }
    }
    if Names(i.assetIds) <= grant.assetFields.Keys {
      assert (forall a :: a in i.fields ==> Names(i.fields[a]) <= grant.assetFields[a]) <==>
        forall a :: a in i.fields ==> forall f :: f in i.fields[a] ==> f in grant.assetFields[a];
    } else {
      var a :| a in Names(i.assetIds) && a !in grant.assetFields.Keys;
    }
  }

  /** A grant that covers the constraints admits every plan compiled under them. */
  lemma CoveringGrantAdmitsAll(i: QueryIntent, c: PlanningConstraints, grant: QueryAccessGrant)
    requires Compile(i, c).Ok? && (forall a :: a in i.assetIds ==> a in grant.assetFields)
    requires forall a :: a in c.allowedFields && a in grant.assetFields ==> c.allowedFields[a] <= grant.assetFields[a]
    requires c.allowedRelationships <= grant.relationships
    ensures Grants(grant, i)
  {
    CompiledPlansAreBounded(i, c);
  }

  /** Where the base policy refuses, or the capability is not a query, the base decision stands. */
  lemma OnlyQueriesAreChecked(base: PolicyDecision, capability: Capability, grants: map<GrantKey, QueryAccessGrant>, key: GrantKey, r: QueryRequest)
    requires !base.allowed || capability == OtherCapability
    ensures Evaluate(base, capability, grants, key, r) == Ok(base)
  {
  }

  // What a request may touch when it was allowed, whoever made it.
  ghost predicate TouchesOnlyGranted(r: QueryRequest, grant: QueryAccessGrant) {
    && (forall a :: a in r.assetIds ==> a in grant.assetFields)
    && (r.plan.selectByAsset.Given? ==> forall a, f :: a in r.plan.selectByAsset.value && f in r.plan.selectByAsset.value[a] ==>
         a in r.assetIds && a in grant.assetFields && f in grant.assetFields[a])
    && (r.plan.whereByAsset.Given? ==> forall a :: a in r.plan.whereByAsset.value ==>
         a in r.assetIds && a in grant.assetFields && r.plan.whereByAsset.value[a].Given?
         && forall f :: f in r.plan.whereByAsset.value[a].value ==> f in grant.assetFields[a])
    && (r.plan.relationships.Given? ==> forall x :: x in r.plan.relationships.value ==> x in grant.relationships)
  }

  /** Whatever is allowed touches granted fields and relationships only, whether or not a planner made it. */
  lemma AllowedTouchesOnlyGranted(base: PolicyDecision, grants: map<GrantKey, QueryAccessGrant>, key: GrantKey, r: QueryRequest)
    requires Evaluate(base, Query, grants, key, r).Ok? && Evaluate(base, Query, grants, key, r).value.allowed
    ensures key in grants && TouchesOnlyGranted(r, grants[key])
  {
  }

  // What a request selects, filters by and joins over, with nothing where it says nothing.
  predicate Selected(r: QueryRequest, grant: QueryAccessGrant) {
    match r.plan.selectByAsset
    case Given(select) =>
      && select.Keys == Names(r.assetIds)
      && (forall a, f :: a in select && f in select[a] ==> a in grant.assetFields && f in grant.assetFields[a])
    case Absent => r.assetIds == []
    case _ => false
  }

  predicate Filtered(r: QueryRequest, grant: QueryAccessGrant) {
    match r.plan.whereByAsset
    case Given(wheres) =>
      && (forall a :: a in wheres ==> a in r.assetIds && wheres[a].Given?)
      && (forall a, f :: a in wheres && wheres[a].Given? && f in wheres[a].value ==> a in grant.assetFields && f in grant.assetFields[a])
    case Absent => true
    case _ => false
  }

  predicate Joined(r: QueryRequest, grant: QueryAccessGrant) {
    match r.plan.relationships
    case Given(related) => forall x :: x in related ==> x in grant.relationships
    case Absent => true
    case _ => false
  }

  /** Any query is let through exactly if the base policy allows it and a grant names its assets and all it selects, filters by and joins over. */
  lemma AllowedExactly(base: PolicyDecision, grants: map<GrantKey, QueryAccessGrant>, key: GrantKey, r: QueryRequest)
    ensures Evaluate(base, Query, grants, key, r).Ok? && Evaluate(base, Query, grants, key, r).value.allowed <==>
      && base.allowed && key in grants && (forall a :: a in r.assetIds ==> a in grants[key].assetFields)
      && Selected(r, grants[key]) && Filtered(r, grants[key]) && Joined(r, grants[key])
  {
    if r.assetIds != [] { assert r.assetIds[0] in Names(r.assetIds); }
    assert Names([]) == {};
    if base.allowed && key in grants && Names(r.assetIds) <= grants[key].assetFields.Keys
       && r.plan.selectByAsset.Given? && r.plan.selectByAsset.value.Keys == Names(r.assetIds)
    {
      SelectedExactly(r, grants[key]);
    }
  }

  lemma SelectedExactly(r: QueryRequest, grant: QueryAccessGrant)
    requires Names(r.assetIds) <= grant.assetFields.Keys && r.plan.selectByAsset.Given? && r.plan.selectByAsset.value.Keys == Names(r.assetIds)
    ensures var select := r.plan.selectByAsset.value;
      Selected(r, grant) <==> forall a :: a in select ==> Names(select[a]) <= grant.assetFields[a]
  {
  }
}
