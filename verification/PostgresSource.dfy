/** The PostgreSQL service-order source: one conditional, idempotent update per transaction. */
module PostgresSource {
  import opened Wrappers
  import opened Scalars
  import opened Actions
  import opened LabSource

  datatype ServiceOrder = ServiceOrder(resolution: Option<string>, recordVersion: int)

  // The digest of a request covers all of it, so the request stands for its digest.
  datatype KeyBinding = KeyBinding(actionId: string, digest: MutationRequest, sourceVersion: int)

  datatype Database = Database(orders: map<string, ServiceOrder>, keys: map<string, KeyBinding>)

  datatype MutationFault =
    | NotPermitted
    | WrongParameters
    | WrongPreconditions
    | MissingIdentity
    | BadValue
    | KeyBoundElsewhere

  datatype OrderReply = OrderReply(success: bool, postconditionsMet: bool, sourceVersion: Option<int>, replayed: bool)

  // A request that passed every check made before the transaction.
  datatype OrderUpdate = OrderUpdate(orderId: string, resolution: Option<string>, expected: Option<string>, version: int)

  // The column is text or null.
  function ColumnValue(s: Scalar): Option<Option<string>> {
    match s
    case Text(t) => Some(Some(t))
    case Null => Some(None)
    case _ => None
  }

  function Checked(request: MutationRequest): Result<OrderUpdate, MutationFault> {
    if request.assetId != "service_orders" then Err(NotPermitted)
    else if request.operation !in {"resolve-service-order", "restore-service-order"} then Err(NotPermitted)
    else if request.parameters.Keys != {"serviceOrderId", "resolution"} then Err(WrongParameters)
    else if request.preconditions.Keys != {"recordVersion", "expectedResolution"} then Err(WrongPreconditions)
    else if request.actionId == [] || request.idempotencyKey == [] then Err(MissingIdentity)
    else
      var version := IntOf(request.preconditions["recordVersion"]);
      var resolution := ColumnValue(request.parameters["resolution"]);
      var expected := ColumnValue(request.preconditions["expectedResolution"]);
      if version.None? || resolution.None? || expected.None? then Err(BadValue)
      else Ok(OrderUpdate(StrOf(request.parameters["serviceOrderId"]), resolution.value, expected.value, version.value))
  }

  // The update's WHERE clause.
  predicate Matches(orders: map<string, ServiceOrder>, update: OrderUpdate) {
    update.orderId in orders && orders[update.orderId] == ServiceOrder(update.expected, update.version)
  }

  function Transaction(db: Database, request: MutationRequest, update: OrderUpdate): (Database, Result<OrderReply, MutationFault>) {
    var key := request.idempotencyKey;
    if key in db.keys then
      (db, if db.keys[key].digest != request then Err(KeyBoundElsewhere)
           else Ok(OrderReply(true, true, Some(db.keys[key].sourceVersion), true)))
    else if !Matches(db.orders, update) then
      (db, Ok(OrderReply(false, false, if update.orderId in db.orders then Some(db.orders[update.orderId].recordVersion) else None, false)))
    else
      var version := update.version + 1;
      (Database(db.orders[update.orderId := ServiceOrder(update.resolution, version)],
                db.keys[key := KeyBinding(request.actionId, request, version)]),
       Ok(OrderReply(true, true, Some(version), false)))
  }

  function MutateOrder(db: Database, request: MutationRequest): (Database, Result<OrderReply, MutationFault>) {
    match Checked(request)
    case Err(e) => (db, Err(e))
    case Ok(update) => Transaction(db, request, update)
  }

  class PostgreSQLLiveConnector {
    var orders: map<string, ServiceOrder>
    var keys: map<string, KeyBinding>

    constructor (orders: map<string, ServiceOrder>)
      ensures Contents() == Database(orders, map[])
    {
      this.orders, this.keys := orders, map[];
    }

    function Contents(): Database
      reads this
    {
      Database(orders, keys)
    }

    method Mutate(request: MutationRequest) returns (reply: Result<OrderReply, MutationFault>)
      modifies this
      ensures (Contents(), reply) == MutateOrder(old(Contents()), request)
    {
      var update := Checked(request);
      if update.Err? {
        return Err(update.error);
      }
      var key, order := request.idempotencyKey, update.value;
      if key in keys {
        if keys[key].digest != request {
          return Err(KeyBoundElsewhere);
        }
        return Ok(OrderReply(true, true, Some(keys[key].sourceVersion), true));
      }
      // UPDATE ... RETURNING
      if order.orderId !in orders || orders[order.orderId].recordVersion != order.version
         || orders[order.orderId].resolution != order.expected
      {
        var current := if order.orderId in orders then Some(orders[order.orderId].recordVersion) else None;
        return Ok(OrderReply(false, false, current, false));
      }
      orders := orders[order.orderId := ServiceOrder(order.resolution, order.version + 1)];
      var updated := orders[order.orderId];
      keys := keys[key := KeyBinding(request.actionId, request, updated.recordVersion)];
      return Ok(OrderReply(true, updated.resolution == order.resolution, Some(updated.recordVersion), false));
    }
  }

  // --- When a request takes effect ---

  // Null, or a text.
  predicate Stands(s: Scalar, column: Option<string>) {
    s == if column.Some? then Text(column.value) else Null
  }

  // One of the two operations on service orders, complete, with a readable version and texts or nulls.
  predicate Admissible(request: MutationRequest) {
    && request.assetId == "service_orders"
    && (request.operation == "resolve-service-order" || request.operation == "restore-service-order")
    && request.parameters.Keys == {"serviceOrderId", "resolution"} && request.preconditions.Keys == {"recordVersion", "expectedResolution"}
    && request.actionId != "" && request.idempotencyKey != ""
    && IntOf(request.preconditions["recordVersion"]).Some?
    && (request.parameters["resolution"].Text? || request.parameters["resolution"].Null?)
    && (request.preconditions["expectedResolution"].Text? || request.preconditions["expectedResolution"].Null?)
  }

  /**
   A request under a new key changes the database exactly if it is admissible and names an order with the version and the
   resolution it is at; that order then has the resolution given, one version on.
   */
  lemma TakesEffectExactly(db: Database, request: MutationRequest)
    requires request.idempotencyKey !in db.keys
    ensures var (next, reply) := MutateOrder(db, request);
      && (reply.Err? <==> !Admissible(request)) && (reply.Err? ==> next == db)
      && (Admissible(request) ==>
            var id, pre := StrOf(request.parameters["serviceOrderId"]), request.preconditions;
            var met := id in db.orders && IntOf(pre["recordVersion"]) == Some(db.orders[id].recordVersion)
                       && Stands(pre["expectedResolution"], db.orders[id].resolution);
            && reply.value.success == reply.value.postconditionsMet == met && !reply.value.replayed
            && (!met ==> next == db && reply.value.sourceVersion == if id in db.orders then Some(db.orders[id].recordVersion) else None)
            && (met ==>
                  && next.orders.Keys == db.orders.Keys && next.orders == db.orders[id := next.orders[id]]
                  && Stands(request.parameters["resolution"], next.orders[id].resolution)
                  && next.orders[id].recordVersion == db.orders[id].recordVersion + 1
                  && reply.value.sourceVersion == Some(next.orders[id].recordVersion)
                  && next.keys == db.keys[request.idempotencyKey := KeyBinding(request.actionId, request, next.orders[id].recordVersion)]))
  {
  }

  /** Under a key on record the request it was recorded for is answered again, and any other is refused. */
  lemma AnsweredAgainExactly(db: Database, request: MutationRequest)
    requires request.idempotencyKey in db.keys && Admissible(request)
    ensures var (next, reply) := MutateOrder(db, request); var held := db.keys[request.idempotencyKey];
      && next == db
      && (held.digest == request ==> reply == Ok(OrderReply(true, true, Some(held.sourceVersion), true)))
      && (held.digest != request ==> reply == Err(KeyBoundElsewhere))
  {
  }

  /** An action's request is admissible exactly if the action's own fields are. */
  lemma ActionIsAdmissible(action: SourceActionPlan)
    ensures Admissible(RequestOf(action)) <==>
      && action.actionId != "" && action.idempotencyKey != "" && action.assetId == "service_orders"
      && (action.operation == "resolve-service-order" || action.operation == "restore-service-order")
      && action.parameters.Keys == {"serviceOrderId", "resolution"} && action.preconditions.Keys == {"recordVersion", "expectedResolution"}
      && IntOf(action.preconditions["recordVersion"]).Some?
      && (action.parameters["resolution"].Text? || action.parameters["resolution"].Null?)
      && (action.preconditions["expectedResolution"].Text? || action.preconditions["expectedResolution"].Null?)
  {
  }

  // --- Any traffic, from any number of gateways ---

  function After(db: Database, requests: seq<MutationRequest>): Database {
    if requests == [] then db else MutateOrder(After(db, requests[..|requests| - 1]), requests[|requests| - 1]).0
  }

  function OrderOf(request: MutationRequest): Option<string> {
    match Checked(request)
    case Ok(update) => Some(update.orderId)
    case Err(_) => None
  }

  // The recorded keys whose request updated this order.
  ghost function KeysFor(keys: map<string, KeyBinding>, orderId: string): set<string> {
    set key | key in keys && OrderOf(keys[key].digest) == Some(orderId)
  }

  ghost predicate Conserved(db: Database, next: Database) {
    && next.orders.Keys == db.orders.Keys && db.keys.Keys <= next.keys.Keys
    && (forall key :: key in db.keys ==> next.keys[key] == db.keys[key])
    && forall id :: id in db.orders ==>
         next.orders[id].recordVersion - db.orders[id].recordVersion == |KeysFor(next.keys, id)| - |KeysFor(db.keys, id)|
  }

  lemma KeysForGrow(keys: map<string, KeyBinding>, key: string, binding: KeyBinding, id: string)
    requires key !in keys
    ensures |KeysFor(keys[key := binding], id)| == |KeysFor(keys, id)| + if OrderOf(binding.digest) == Some(id) then 1 else 0
  {
    if OrderOf(binding.digest) == Some(id) {
      assert KeysFor(keys[key := binding], id) == KeysFor(keys, id) + {key};
    } else {
      assert KeysFor(keys[key := binding], id) == KeysFor(keys, id);
    }
  }

  lemma TransactionConserves(db: Database, request: MutationRequest, update: OrderUpdate)
    requires OrderOf(request) == Some(update.orderId)
    ensures Conserved(db, Transaction(db, request, update).0)
  {
    var next := Transaction(db, request, update).0;
    if next != db {
      forall id | id in db.orders
        ensures next.orders[id].recordVersion - db.orders[id].recordVersion == |KeysFor(next.keys, id)| - |KeysFor(db.keys, id)|
      {
        KeysForGrow(db.keys, request.idempotencyKey, next.keys[request.idempotencyKey], id);
      }
    }
  }

  lemma OneMutation(db: Database, request: MutationRequest)
    ensures Conserved(db, MutateOrder(db, request).0)
  {
    if Checked(request).Ok? {
      TransactionConserves(db, request, Checked(request).value);
    }
  }

  /** Each order has moved one version for each key recorded against it; no binding is rewritten, no order appears or goes. */
  lemma {:induction false} OrdersConserve(db: Database, requests: seq<MutationRequest>)
    ensures Conserved(db, After(db, requests))
  {
    if requests != [] {
      var n := |requests| - 1;
      OrdersConserve(db, requests[..n]);
      OneMutation(After(db, requests[..n]), requests[n]);
    }
  }

  // The versions of these orders together.
  ghost function TotalVersions(orders: map<string, ServiceOrder>): int {
    if orders == map[] then 0
    else
      var id :| id in orders;
      orders[id].recordVersion + TotalVersions(orders - {id})
  }

  lemma {:induction false} TotalWithout(orders: map<string, ServiceOrder>, id: string)
    requires id in orders
    ensures TotalVersions(orders) == orders[id].recordVersion + TotalVersions(orders - {id})
  {
    var first :| first in orders && TotalVersions(orders) == orders[first].recordVersion + TotalVersions(orders - {first});
    if first != id {
      TotalWithout(orders - {first}, id);
      TotalWithout(orders - {id}, first);
      assert orders - {first} - {id} == orders - {id} - {first};
    }
  }

  /** All versions together have grown by the number of idempotency rows. */
  lemma {:induction false} VersionsCountKeys(db: Database, requests: seq<MutationRequest>)
    ensures var now := After(db, requests);
      TotalVersions(now.orders) - TotalVersions(db.orders) == |now.keys| - |db.keys|
  {
    if requests != [] {
      var n := |requests| - 1;
      VersionsCountKeys(db, requests[..n]);
      var before, now := After(db, requests[..n]), After(db, requests);
      if now != before {
        var id := Checked(requests[n]).value.orderId;
        TotalWithout(before.orders, id);
        TotalWithout(now.orders, id);
        assert now.orders - {id} == before.orders - {id};
      }
    }
  }

  /** Once a key is recorded, no request under that key changes the database again. */
  lemma {:induction false} RepeatedKeyIsInert(db: Database, requests: seq<MutationRequest>, again: MutationRequest)
    requires again.idempotencyKey in db.keys
    ensures MutateOrder(After(db, requests), again).0 == After(db, requests)
  {
    OrdersConserve(db, requests);
  }

  /** An update followed at once by its restoration puts the resolution back, two versions on. */
  lemma RestoreUndoes(db: Database, request: MutationRequest, restore: MutationRequest)
    requires Checked(request).Ok? && Checked(restore).Ok? && restore.idempotencyKey !in db.keys
    requires MutateOrder(db, request).0 != db && restore.idempotencyKey != request.idempotencyKey
    requires var u, v := Checked(request).value, Checked(restore).value;
      v == OrderUpdate(u.orderId, u.expected, u.resolution, u.version + 1)
    ensures var id := Checked(request).value.orderId;
      MutateOrder(MutateOrder(db, request).0, restore).0.orders
      == db.orders[id := ServiceOrder(db.orders[id].resolution, db.orders[id].recordVersion + 2)]
  {
  }
}
