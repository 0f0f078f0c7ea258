/** Whole packs: datasets are generated after the datasets they refer to, whatever order they are declared in. */
module PackFactory {
  import opened Wrappers
  import opened PackDatasets

  datatype IndustryPackDefinition = IndustryPackDefinition(packId: string, version: string, seed: int, datasets: seq<DatasetBlueprint>)
  {
    ghost predicate Valid() {
      && packId != [] && version != [] && datasets != []
      && AllValid(datasets) && DistinctIds(datasets)
    }
  }

  ghost predicate AllValid(datasets: seq<DatasetBlueprint>) {
    forall d :: d in datasets ==> d.Valid()
  }

  ghost predicate DistinctIds(datasets: seq<DatasetBlueprint>) {
    forall i, j :: 0 <= i < j < |datasets| ==> datasets[i].datasetId != datasets[j].datasetId
  }

  function Ids(datasets: seq<DatasetBlueprint>): set<string> {
    set d | d in datasets :: d.datasetId
  }

  // The random generator's seed: the hash of pack, version, pack seed and dataset id.
  type Seeding = (string, string, int, string) -> string

  function SeedOf(seeding: Seeding, def: IndustryPackDefinition, dataset: DatasetBlueprint): string {
    seeding(def.packId, def.version, def.seed, dataset.datasetId)
  }

  // The part of a pack a dataset may look at.
  function Parents(pack: Pack, dataset: DatasetBlueprint): Pack {
    map id | id in pack && id in dataset.References() :: pack[id]
  }

  // No dataset of a pack is empty.
  ghost predicate Populated(pack: Pack) {
    forall id :: id in pack ==> pack[id] != []
  }

  // --- What a finished pack is, without any order ---

  ghost predicate Holds(dice: Dice, seeding: Seeding, def: IndustryPackDefinition, pack: Pack, dataset: DatasetBlueprint) {
    && dataset.Valid() && dataset.datasetId in pack && dataset.References() <= pack.Keys
    && Ready(dataset.fields, Parents(pack, dataset))
    && Rows(dice, SeedOf(seeding, def, dataset), dataset, Parents(pack, dataset)) == Ok(pack[dataset.datasetId])
  }

  ghost predicate Solution(dice: Dice, seeding: Seeding, def: IndustryPackDefinition, pack: Pack) {
    && pack.Keys == Ids(def.datasets)
    && forall d :: d in def.datasets ==> Holds(dice, seeding, def, pack, d)
  }

  // --- Dependency order ---

  // Every dataset after those it refers to.
  ghost predicate Ordered(order: seq<DatasetBlueprint>, datasets: seq<DatasetBlueprint>) {
    forall i :: 0 <= i < |order| ==> order[i] in datasets && order[i].References() <= Ids(order[..i])
  }

  ghost predicate Orderable(datasets: seq<DatasetBlueprint>) {
    exists order :: Ordered(order, datasets) && Ids(order) == Ids(datasets)
  }

  // Some dependency order reaches this dataset.
  ghost predicate Buildable(datasets: seq<DatasetBlueprint>, dataset: DatasetBlueprint) {
    exists order :: Ordered(order, datasets) && dataset in order
  }

  // Every reference to a declared dataset names one of its fields.
  ghost predicate FieldsResolve(datasets: seq<DatasetBlueprint>) {
    forall d, p, f :: d in datasets && p in datasets && f in d.fields && f.kind == Reference && f.referenceDataset == p.datasetId ==>
      exists g :: g in p.fields && g.name == f.referenceField
  }

  lemma OrderGrows(order: seq<DatasetBlueprint>, datasets: seq<DatasetBlueprint>, next: DatasetBlueprint)
    requires Ordered(order, datasets) && next in datasets && next.References() <= Ids(order)
    ensures Ordered(order + [next], datasets) && Ids(order + [next]) == Ids(order) + {next.datasetId}
  {
    forall i | 0 <= i <= |order| ensures (order + [next])[i].References() <= Ids((order + [next])[..i]) {
      assert (order + [next])[..i] == order[..i];
    }
    forall id | id in Ids(order) + {next.datasetId} ensures id in Ids(order + [next]) {
      if id in Ids(order) {
        var d :| d in order && d.datasetId == id;
        assert d in order + [next];
      } else {
        assert next in order + [next];
      }
    }
  }

  lemma OrderShrinks(order: seq<DatasetBlueprint>, datasets: seq<DatasetBlueprint>)
    requires Ordered(order, datasets) && order != []
    ensures Ordered(order[..|order| - 1], datasets)
    ensures order[|order| - 1] in datasets && order[|order| - 1].References() <= Ids(order[..|order| - 1])
    ensures Ids(order) == Ids(order[..|order| - 1]) + {order[|order| - 1].datasetId}
  {
  }

  // A set of datasets closed under "all references are inside" holds every order.
  lemma {:induction false} OrdersStayInside(order: seq<DatasetBlueprint>, datasets: seq<DatasetBlueprint>, inside: set<string>)
    requires Ordered(order, datasets)
    requires forall d :: d in datasets && d.References() <= inside ==> d.datasetId in inside
    ensures Ids(order) <= inside
  {
    if order != [] {
      OrderShrinks(order, datasets);
      OrdersStayInside(order[..|order| - 1], datasets, inside);
    }
  }

  // --- One pack for any declaration order ---

  lemma HoldsAgree(dice: Dice, seeding: Seeding, a: IndustryPackDefinition, b: IndustryPackDefinition, p: Pack, q: Pack, d: DatasetBlueprint)
    requires a.packId == b.packId && a.version == b.version && a.seed == b.seed
    requires Holds(dice, seeding, a, p, d) && Holds(dice, seeding, b, q, d)
    requires forall id :: id in d.References() ==> p[id] == q[id]
    ensures p[d.datasetId] == q[d.datasetId]
  {
    assert Parents(p, d) == Parents(q, d);
  }

  // What has been generated of one definition and what of another with the same datasets: equal wherever both have it.
  lemma {:induction false} PacksAgree(dice: Dice, seeding: Seeding, a: IndustryPackDefinition, b: IndustryPackDefinition,
      p: Pack, q: Pack, order: seq<DatasetBlueprint>)
    requires a.packId == b.packId && a.version == b.version && a.seed == b.seed
    requires AllHold(dice, seeding, a, p) && AllHold(dice, seeding, b, q)
    requires Ordered(order, a.datasets) && Ids(order) <= p.Keys && forall d :: d in a.datasets ==> d in b.datasets
    ensures forall id :: id in Ids(order) && id in q ==> p[id] == q[id]
  {
    hide Ids;
    if order == [] {
      NoIds();
    } else {
      OrderShrinks(order, a.datasets);
      PacksAgree(dice, seeding, a, b, p, q, order[..|order| - 1]);
      var d := order[|order| - 1];
      if d.datasetId in q { HoldsAgree(dice, seeding, a, b, p, q, d); }
    }
  }

  lemma NoIds()
    ensures Ids([]) == {}
  {
  }

  lemma SameDatasets(a: seq<DatasetBlueprint>, b: seq<DatasetBlueprint>)
    requires multiset(a) == multiset(b)
    ensures forall d :: d in a <==> d in b
    ensures Ids(a) == Ids(b)
  {
    forall d ensures d in a <==> d in b {
      assert d in multiset(a) <==> d in multiset(b);
    }
  }

  /** Two definitions that list the same datasets, in whatever order, have the same pack. */
  lemma DeclarationOrderIsIrrelevant(dice: Dice, seeding: Seeding, a: IndustryPackDefinition, b: IndustryPackDefinition, p: Pack, q: Pack)
    requires a.packId == b.packId && a.version == b.version && a.seed == b.seed
    requires multiset(a.datasets) == multiset(b.datasets) && Orderable(a.datasets)
    requires Solution(dice, seeding, a, p) && Solution(dice, seeding, b, q)
    ensures p == q
  {
    hide Ordered, Ids, Holds;
    var order :| Ordered(order, a.datasets) && Ids(order) == Ids(a.datasets);
    SameDatasets(a.datasets, b.datasets);
    PacksAgree(dice, seeding, a, b, p, q, order);
  }

  // --- The work list ---

  function Waiting(datasets: seq<DatasetBlueprint>, done: set<string>): seq<DatasetBlueprint> {
    if datasets == [] then []
    else if datasets[0].datasetId in done then Waiting(datasets[1..], done)
    else [datasets[0]] + Waiting(datasets[1..], done)
  }

  lemma {:induction false} WaitingAre(datasets: seq<DatasetBlueprint>, done: set<string>)
    ensures forall d :: d in Waiting(datasets, done) <==> d in datasets && d.datasetId !in done
  {
    if datasets != [] {
      WaitingAre(datasets[1..], done);
      assert forall d :: d in datasets <==> d == datasets[0] || d in datasets[1..];
    }
  }

  // list.remove: the first equal element goes.
  function Remove(s: seq<DatasetBlueprint>, d: DatasetBlueprint): seq<DatasetBlueprint> {
    if s == [] then [] else if s[0] == d then s[1..] else [s[0]] + Remove(s[1..], d)
  }

  lemma {:induction false} WaitingForNone(datasets: seq<DatasetBlueprint>)
    ensures Waiting(datasets, {}) == datasets
  {
    if datasets != [] { WaitingForNone(datasets[1..]); }
  }

  lemma {:induction false} WaitingIgnores(datasets: seq<DatasetBlueprint>, done: set<string>, id: string)
    requires forall i :: 0 <= i < |datasets| ==> datasets[i].datasetId != id
    ensures Waiting(datasets, done + {id}) == Waiting(datasets, done)
  {
    if datasets != [] { WaitingIgnores(datasets[1..], done, id); }
  }

  lemma {:induction false} RemoveIsDone(datasets: seq<DatasetBlueprint>, done: set<string>, d: DatasetBlueprint)
    requires DistinctIds(datasets) && d in datasets && d.datasetId !in done
    ensures Remove(Waiting(datasets, done), d) == Waiting(datasets, done + {d.datasetId})
    ensures |Waiting(datasets, done + {d.datasetId})| < |Waiting(datasets, done)|
  {
    var tail, first := datasets[1..], Waiting(datasets, done);
    if datasets[0] == d {
      WaitingIgnores(tail, done, d.datasetId);
      assert first == [d] + Waiting(tail, done);
    } else {
      RemoveIsDone(tail, done, d);
      assert datasets[0].datasetId != d.datasetId;
      if datasets[0].datasetId !in done {
        assert first == [datasets[0]] + Waiting(tail, done);
        assert first[1..] == Waiting(tail, done);
      }
    }
  }

  lemma {:induction false} WaitingIsDistinct(datasets: seq<DatasetBlueprint>, done: set<string>)
    requires DistinctIds(datasets)
    ensures DistinctIds(Waiting(datasets, done))
  {
    if datasets != [] {
      var rest := Waiting(datasets[1..], done);
      WaitingIsDistinct(datasets[1..], done);
      WaitingAre(datasets[1..], done);
      forall j | 0 <= j < |rest| ensures rest[j].datasetId != datasets[0].datasetId { assert rest[j] in datasets[1..]; }
    }
  }

  // What holds between any two datasets: the pack so far was generated in some dependency order, and the rest is waiting.
  ghost predicate Underway(dice: Dice, seeding: Seeding, def: IndustryPackDefinition, pack: Pack, order: seq<DatasetBlueprint>) {
    && Populated(pack) && pack.Keys <= Ids(def.datasets)
    && Ordered(order, def.datasets) && Ids(order) == pack.Keys
    && AllHold(dice, seeding, def, pack)
  }

  ghost predicate AllHold(dice: Dice, seeding: Seeding, def: IndustryPackDefinition, pack: Pack) {
    forall d :: d in def.datasets && d.datasetId in pack ==> Holds(dice, seeding, def, pack, d)
  }

  lemma HoldsLater(dice: Dice, seeding: Seeding, def: IndustryPackDefinition, pack: Pack, d: DatasetBlueprint, id: string, rows: seq<Record>)
    requires Holds(dice, seeding, def, pack, d) && id !in pack
    ensures Holds(dice, seeding, def, pack[id := rows], d)
  {
    assert Parents(pack[id := rows], d) == Parents(pack, d);
  }

  predicate CanStart(pack: Pack, dataset: DatasetBlueprint) {
    dataset.References() <= pack.Keys
  }

  // A dataset's rows come from its parents alone.
  lemma SameRows(dice: Dice, seeding: Seeding, def: IndustryPackDefinition, pack: Pack, d: DatasetBlueprint)
    requires d.Valid() && CanStart(pack, d) && Ready(d.fields, pack)
    ensures Ready(d.fields, Parents(pack, d))
    ensures Rows(dice, SeedOf(seeding, def, d), d, Parents(pack, d)) == Rows(dice, SeedOf(seeding, def, d), d, pack)
  {
    forall i | 0 <= i < |d.fields| && d.fields[i].kind == Reference
      ensures d.fields[i].referenceDataset in Parents(pack, d)
      ensures pack[d.fields[i].referenceDataset] == Parents(pack, d)[d.fields[i].referenceDataset]
    {
      assert d.fields[i] in d.fields;
    }
    RowsLookAtParentsOnly(dice, SeedOf(seeding, def, d), d.fields, d.rowCount, pack, Parents(pack, d));
  }

  lemma NewOneHolds(dice: Dice, seeding: Seeding, def: IndustryPackDefinition, pack: Pack, d: DatasetBlueprint, rows: seq<Record>)
    requires Populated(pack) && d.datasetId !in pack && d.References() <= pack.Keys && d.Valid()
    requires Ready(d.fields, pack) && Rows(dice, SeedOf(seeding, def, d), d, pack) == Ok(rows)
    ensures Holds(dice, seeding, def, pack[d.datasetId := rows], d)
  {
    assert Parents(pack[d.datasetId := rows], d) == Parents(pack, d);
    SameRows(dice, seeding, def, pack, d);
  }

  lemma IdOf(datasets: seq<DatasetBlueprint>, d: DatasetBlueprint)
    requires d in datasets
    ensures d.datasetId in Ids(datasets)
  {
  }

  lemma SameId(datasets: seq<DatasetBlueprint>, d: DatasetBlueprint, e: DatasetBlueprint)
    requires DistinctIds(datasets) && d in datasets && e in datasets && d.datasetId == e.datasetId
    ensures d == e
  {
  }

  lemma AllHoldLater(dice: Dice, seeding: Seeding, def: IndustryPackDefinition, pack: Pack, d: DatasetBlueprint, rows: seq<Record>)
    requires DistinctIds(def.datasets) && AllHold(dice, seeding, def, pack) && d in def.datasets && d.datasetId !in pack
    requires Holds(dice, seeding, def, pack[d.datasetId := rows], d)
    ensures AllHold(dice, seeding, def, pack[d.datasetId := rows])
  {
    forall e | e in def.datasets && e.datasetId in pack[d.datasetId := rows]
      ensures Holds(dice, seeding, def, pack[d.datasetId := rows], e)
    {
      if e.datasetId == d.datasetId {
        SameId(def.datasets, d, e);
      } else {
        HoldsLater(dice, seeding, def, pack, e, d.datasetId, rows);
      }
    }
  }

  lemma NextDataset(dice: Dice, seeding: Seeding, def: IndustryPackDefinition, pack: Pack, order: seq<DatasetBlueprint>,
      d: DatasetBlueprint, rows: seq<Record>)
    requires Underway(dice, seeding, def, pack, order)
    requires d in def.datasets && d.References() <= pack.Keys && rows != []
    requires AllHold(dice, seeding, def, pack[d.datasetId := rows])
    ensures Underway(dice, seeding, def, pack[d.datasetId := rows], order + [d])
  {
    hide AllHold, Ordered, Ids;
    IdOf(def.datasets, d);
    OrderGrows(order, def.datasets, d);
  }

  lemma PackIsReady(pack: Pack, d: DatasetBlueprint)
    requires d.Valid() && d.References() <= pack.Keys && Populated(pack)
    ensures Ready(d.fields, pack)
  {
  }

  // A dataset of the pack has all its fields in every row.
  lemma RowsHaveFields(dice: Dice, seeding: Seeding, def: IndustryPackDefinition, pack: Pack, p: DatasetBlueprint, name: string)
    requires Holds(dice, seeding, def, pack, p) && exists g :: g in p.fields && g.name == name
    ensures forall i :: 0 <= i < |pack[p.datasetId]| ==> name in pack[p.datasetId][i]
  {
    RowsFit(dice, SeedOf(seeding, def, p), p.fields, p.rowCount, Parents(pack, p));
    forall i | 0 <= i < |pack[p.datasetId]| ensures name in pack[p.datasetId][i] {
      assert RowFits(p.fields, i, Parents(pack, p), pack[p.datasetId][i]);
    }
  }

  /** With every referenced field in its dataset, no lookup fails. */
  lemma ResolvedFieldsSucceed(dice: Dice, seeding: Seeding, def: IndustryPackDefinition, pack: Pack, order: seq<DatasetBlueprint>, d: DatasetBlueprint)
    requires Underway(dice, seeding, def, pack, order) && FieldsResolve(def.datasets)
    requires d in def.datasets && d.Valid() && Ready(d.fields, pack)
    ensures Rows(dice, SeedOf(seeding, def, d), d, pack).Ok?
  {
    forall i | 0 <= i < |d.fields| ensures Resolves(d.fields[i], pack) {
      var f := d.fields[i];
      if f.kind == Reference && f.referenceDataset in pack {
        var p :| p in def.datasets && p.datasetId == f.referenceDataset;
        assert f in d.fields;
        RowsHaveFields(dice, seeding, def, pack, p, f.referenceField);
      }
    }
    RowsSucceed(dice, SeedOf(seeding, def, d), d.fields, d.rowCount, pack);
  }

  // Nothing waiting could start.
  ghost predicate Stuck(pack: Pack, waiting: seq<DatasetBlueprint>) {
    forall d :: d in waiting ==> !CanStart(pack, d)
  }

  lemma StuckIsUnbuildable(dice: Dice, seeding: Seeding, def: IndustryPackDefinition, pack: Pack, order: seq<DatasetBlueprint>)
    requires def.Valid() && Underway(dice, seeding, def, pack, order) && Stuck(pack, Waiting(def.datasets, pack.Keys))
    ensures forall d :: d in def.datasets ==> (Buildable(def.datasets, d) <==> d.datasetId in pack)
  {
    WaitingAre(def.datasets, pack.Keys);
    forall d | d in def.datasets ensures Buildable(def.datasets, d) <==> d.datasetId in pack {
      if d.datasetId in pack {
        var e: DatasetBlueprint :| e in order && e.datasetId == d.datasetId;
        assert e == d;
      }
      forall other | Ordered(other, def.datasets) && d in other ensures d.datasetId in pack {
        OrdersStayInside(other, def.datasets, pack.Keys);
      }
    }
  }

  function IdList(datasets: seq<DatasetBlueprint>): seq<string> {
    seq(|datasets|, i requires 0 <= i < |datasets| => datasets[i].datasetId)
  }

  // These are the ids of exactly the datasets no dependency order reaches, each once.
  ghost predicate NamesUnbuildable(datasets: seq<DatasetBlueprint>, ids: seq<string>) {
    && (forall i, j :: 0 <= i < j < |ids| ==> ids[i] != ids[j])
    && (forall id :: id in ids <==> exists d :: d in datasets && d.datasetId == id && !Buildable(datasets, d))
  }

  lemma WaitingIsUnbuildable(datasets: seq<DatasetBlueprint>, done: set<string>)
    requires DistinctIds(datasets) && forall d :: d in datasets ==> (Buildable(datasets, d) <==> d.datasetId in done)
    ensures NamesUnbuildable(datasets, IdList(Waiting(datasets, done)))
  {
    var waiting := Waiting(datasets, done);
    var ids := IdList(waiting);
    WaitingIsDistinct(datasets, done);
    WaitingAre(datasets, done);
    forall id ensures id in ids <==> exists d :: d in datasets && d.datasetId == id && !Buildable(datasets, d) {
      if id in ids {
        var i :| 0 <= i < |ids| && ids[i] == id;
        assert waiting[i] in waiting;
      }
      if d :| d in datasets && d.datasetId == id && !Buildable(datasets, d) {
        assert d in waiting;
        var i :| 0 <= i < |waiting| && waiting[i] == d;
        assert ids[i] == id;
      }
    }
  }

  // Everything that some order reaches was generated.
  ghost predicate Finished(dice: Dice, seeding: Seeding, def: IndustryPackDefinition, pack: Pack) {
    && Stuck(pack, Waiting(def.datasets, pack.Keys))
    && exists order :: Underway(dice, seeding, def, pack, order)
  }

  // The dataset's turn comes, and one of its rows looks the field up in vain.
  ghost predicate FailsAt(dice: Dice, seeding: Seeding, def: IndustryPackDefinition, pack: Pack, d: DatasetBlueprint, field: string) {
    && d in def.datasets && d.datasetId !in pack && CanStart(pack, d) && d.Valid() && Ready(d.fields, pack)
    && Rows(dice, SeedOf(seeding, def, d), d, pack) == Err(MissingField(field))
    && LooksInVain(d.fields, d.rowCount, pack, field)
  }

  ghost predicate Fails(dice: Dice, seeding: Seeding, def: IndustryPackDefinition, field: string) {
    exists pack, order, d :: Underway(dice, seeding, def, pack, order) && FailsAt(dice, seeding, def, pack, d, field)
  }

  // The pack; or what no dependency order reaches, the rest being generated; or a field that was looked up in vain.
  ghost predicate Outcome(dice: Dice, seeding: Seeding, def: IndustryPackDefinition, r: Result<Pack, GenerationError>) {
    match r
    case Ok(pack) => Solution(dice, seeding, def, pack) && Orderable(def.datasets)
    case Err(Unresolved(ids)) =>
      ids != [] && NamesUnbuildable(def.datasets, ids) && exists pack :: Finished(dice, seeding, def, pack)
    case Err(MissingField(field)) => !FieldsResolve(def.datasets) && Fails(dice, seeding, def, field)
  }

  /** generate(): sweeps over the datasets still waiting until none is left or a sweep changes nothing. */
  method Generate(dice: Dice, seeding: Seeding, def: IndustryPackDefinition) returns (r: Result<Pack, GenerationError>)
    requires def.Valid()
    ensures Outcome(dice, seeding, def, r)
  {
    var pack: Pack := map[];
    var pending := def.datasets;
    ghost var order := [];
    WaitingForNone(def.datasets);
    assert pack.Keys == {};
    while pending != []
      invariant Underway(dice, seeding, def, pack, order)
      invariant pending == Waiting(def.datasets, pack.Keys)
      decreases |pending|
    {
      var failed, progressed;
      failed, progressed, pack, pending, order := Sweep(dice, seeding, def, pack, pending, order);
      if failed.Some? {
        return Err(failed.value);
      }
      if !progressed {
        StuckIsUnbuildable(dice, seeding, def, pack, order);
        assert Finished(dice, seeding, def, pack);
        WaitingIsUnbuildable(def.datasets, pack.Keys);
        return Err(Unresolved(IdList(pending)));
      }
    }
    NothingWaits(def.datasets, pack.Keys);
    return Ok(pack);
  }

  lemma TakenOff(datasets: seq<DatasetBlueprint>, pack: Pack, d: DatasetBlueprint, rows: seq<Record>)
    requires DistinctIds(datasets) && d in datasets && d.datasetId !in pack
    ensures Remove(Waiting(datasets, pack.Keys), d) == Waiting(datasets, pack[d.datasetId := rows].Keys)
    ensures |Waiting(datasets, pack[d.datasetId := rows].Keys)| < |Waiting(datasets, pack.Keys)|
  {
    RemoveIsDone(datasets, pack.Keys, d);
    assert pack[d.datasetId := rows].Keys == pack.Keys + {d.datasetId};
  }

  // What is still ahead in the snapshot has not been generated.
  ghost predicate RestIsNew(snapshot: seq<DatasetBlueprint>, i: nat, pack: Pack) {
    forall j :: i <= j < |snapshot| ==> snapshot[j].datasetId !in pack
  }

  lemma NewInRest(snapshot: seq<DatasetBlueprint>, i: nat, pack: Pack, rows: seq<Record>)
    requires DistinctIds(snapshot) && i < |snapshot| && RestIsNew(snapshot, i, pack)
    ensures RestIsNew(snapshot, i + 1, pack[snapshot[i].datasetId := rows])
  {
  }

  // One pass over a snapshot of the work list.
  method Sweep(dice: Dice, seeding: Seeding, def: IndustryPackDefinition, pack0: Pack, snapshot: seq<DatasetBlueprint>, ghost order0: seq<DatasetBlueprint>)
    returns (failed: Option<GenerationError>, progressed: bool, pack: Pack, pending: seq<DatasetBlueprint>, ghost order: seq<DatasetBlueprint>)
    requires DistinctIds(def.datasets) && AllValid(def.datasets)
    requires Underway(dice, seeding, def, pack0, order0) && snapshot == Waiting(def.datasets, pack0.Keys)
    ensures failed.Some? ==>
      failed.value.MissingField? && !FieldsResolve(def.datasets) && Fails(dice, seeding, def, failed.value.field)
    ensures failed.None? ==> Underway(dice, seeding, def, pack, order) && pending == Waiting(def.datasets, pack.Keys)
    ensures failed.None? ==> if progressed then |pending| < |snapshot| else pending == snapshot && Stuck(pack, pending)
  {
    hide Underway, Fails, FieldsResolve, Ids;
    failed, progressed, pack, pending, order := None, false, pack0, snapshot, order0;
    WaitingIsDistinct(def.datasets, pack.Keys);
    WaitingAre(def.datasets, pack.Keys);
    for i := 0 to |snapshot|
      invariant Underway(dice, seeding, def, pack, order)
      invariant pending == Waiting(def.datasets, pack.Keys)
      invariant RestIsNew(snapshot, i, pack)
      invariant if progressed then |pending| < |snapshot| else pending == snapshot
      invariant !progressed ==> forall j :: 0 <= j < i ==> !CanStart(pack, snapshot[j])
    {
      var dataset := snapshot[i];
      assert dataset in snapshot;
      if CanStart(pack, dataset) {
        var rows := Start(dice, seeding, def, pack, dataset, order);
        if rows.Err? {
          failed := Some(rows.error);
          return;
        }
        TakenOff(def.datasets, pack, dataset, rows.value);
        NewInRest(snapshot, i, pack, rows.value);
        pack := pack[dataset.datasetId := rows.value];
        order := order + [dataset];
        pending := Remove(pending, dataset);
        progressed := true;
      }
    }
  }

  method Start(dice: Dice, seeding: Seeding, def: IndustryPackDefinition, pack: Pack, dataset: DatasetBlueprint, ghost order: seq<DatasetBlueprint>)
    returns (rows: Result<seq<Record>, GenerationError>)
    requires Underway(dice, seeding, def, pack, order) && dataset in def.datasets && dataset.Valid()
    requires dataset.datasetId !in pack && CanStart(pack, dataset)
    requires DistinctIds(def.datasets)
    ensures rows.Ok? ==> Underway(dice, seeding, def, pack[dataset.datasetId := rows.value], order + [dataset])
    ensures rows.Err? ==>
      rows.error.MissingField? && !FieldsResolve(def.datasets) && Fails(dice, seeding, def, rows.error.field)
  {
    PackIsReady(pack, dataset);
    rows := GenerateDataset(dice, SeedOf(seeding, def, dataset), dataset, pack);
    if rows.Ok? {
      RowsFit(dice, SeedOf(seeding, def, dataset), dataset.fields, dataset.rowCount, pack);
      NewOneHolds(dice, seeding, def, pack, dataset, rows.value);
      AllHoldLater(dice, seeding, def, pack, dataset, rows.value);
      NextDataset(dice, seeding, def, pack, order, dataset, rows.value);
    } else {
      RowsFail(dice, SeedOf(seeding, def, dataset), dataset.fields, dataset.rowCount, pack);
      assert FailsAt(dice, seeding, def, pack, dataset, rows.error.field);
      if FieldsResolve(def.datasets) { ResolvedFieldsSucceed(dice, seeding, def, pack, order, dataset); }
    }
  }

  lemma NothingWaits(datasets: seq<DatasetBlueprint>, done: set<string>)
    requires Waiting(datasets, done) == []
    ensures Ids(datasets) <= done
  {
  }

  /** In a generated pack every dataset has all its rows, and every row all its fields, with values that fit. */
  lemma SolutionFits(dice: Dice, seeding: Seeding, def: IndustryPackDefinition, pack: Pack, d: DatasetBlueprint)
    requires Solution(dice, seeding, def, pack) && d in def.datasets
    ensures Holds(dice, seeding, def, pack, d) && |pack[d.datasetId]| == d.rowCount
    ensures AllFit(d.fields, Parents(pack, d), pack[d.datasetId])
  {
    RowsFit(dice, SeedOf(seeding, def, d), d.fields, d.rowCount, Parents(pack, d));
  }

  lemma OrderableIsBuildable(datasets: seq<DatasetBlueprint>, d: DatasetBlueprint)
    requires DistinctIds(datasets) && Orderable(datasets) && d in datasets
    ensures Buildable(datasets, d)
  {
    var order: seq<DatasetBlueprint> :| Ordered(order, datasets) && Ids(order) == Ids(datasets);
    assert d.datasetId in Ids(datasets);
    var e: DatasetBlueprint :| e in order && e.datasetId == d.datasetId;
    SameId(datasets, d, e);
  }

  /** When reference fields exist, a pack is generated exactly when there is a dependency order, and otherwise the error names what none reaches. */
  lemma GeneratedIffOrderable(dice: Dice, seeding: Seeding, def: IndustryPackDefinition, r: Result<Pack, GenerationError>)
    requires def.Valid() && FieldsResolve(def.datasets) && Outcome(dice, seeding, def, r)
    ensures r.Ok? <==> Orderable(def.datasets)
    ensures r.Err? ==> r.error.Unresolved? && NamesUnbuildable(def.datasets, r.error.datasetIds)
  {
    if r.Err? && Orderable(def.datasets) {
      var ids := r.error.datasetIds;
      assert ids[0] in ids;
      var d :| d in def.datasets && d.datasetId == ids[0] && !Buildable(def.datasets, d);
      OrderableIsBuildable(def.datasets, d);
    }
  }

  // The same pack, version, seed and datasets, listed in whatever order.
  ghost predicate SameDefinition(a: IndustryPackDefinition, b: IndustryPackDefinition) {
    a.packId == b.packId && a.version == b.version && a.seed == b.seed && forall d :: d in a.datasets <==> d in b.datasets
  }

  // Whatever can start is there.
  ghost predicate Complete(datasets: seq<DatasetBlueprint>, pack: Pack) {
    forall d :: d in datasets && CanStart(pack, d) ==> d.datasetId in pack
  }

  // A dataset whose turn comes in one order has its rows in every pack that is complete.
  lemma TurnComesEverywhere(dice: Dice, seeding: Seeding, a: IndustryPackDefinition, b: IndustryPackDefinition,
      p: Pack, order: seq<DatasetBlueprint>, d: DatasetBlueprint, q: Pack)
    requires SameDefinition(a, b) && Underway(dice, seeding, a, p, order)
    requires d in a.datasets && CanStart(p, d) && d.Valid() && Ready(d.fields, p)
    requires AllHold(dice, seeding, b, q) && Complete(b.datasets, q)
    ensures Rows(dice, SeedOf(seeding, a, d), d, p).Ok?
  {
    hide Ordered, Ids, Rows, Ready;
    OrdersStayInside(order, a.datasets, q.Keys);
    PacksAgree(dice, seeding, a, b, p, q, order);
    assert Parents(p, d) == Parents(q, d);
    SameRows(dice, seeding, a, p, d);
    assert Holds(dice, seeding, b, q, d);
  }

  // Where one lookup fails, no order of generation gets past it.
  lemma FailureIsFatal(dice: Dice, seeding: Seeding, a: IndustryPackDefinition, b: IndustryPackDefinition, q: Pack, field: string)
    requires SameDefinition(a, b) && Fails(dice, seeding, a, field)
    ensures !(AllHold(dice, seeding, b, q) && Complete(b.datasets, q))
  {
    hide Underway, AllHold, Complete, Rows, Ready, LooksInVain;
    var p, order, d :| Underway(dice, seeding, a, p, order) && FailsAt(dice, seeding, a, p, d, field);
    if AllHold(dice, seeding, b, q) && Complete(b.datasets, q) {
      TurnComesEverywhere(dice, seeding, a, b, p, order, d, q);
    }
  }

  lemma SolutionIsComplete(dice: Dice, seeding: Seeding, def: IndustryPackDefinition, pack: Pack)
    requires Solution(dice, seeding, def, pack)
    ensures AllHold(dice, seeding, def, pack) && Complete(def.datasets, pack)
  {
  }

  lemma FinishedIsComplete(dice: Dice, seeding: Seeding, def: IndustryPackDefinition, pack: Pack)
    requires Finished(dice, seeding, def, pack)
    ensures AllHold(dice, seeding, def, pack) && Complete(def.datasets, pack)
  {
    WaitingAre(def.datasets, pack.Keys);
  }

  lemma FailureShows(dice: Dice, seeding: Seeding, a: IndustryPackDefinition, b: IndustryPackDefinition, field: string, r: Result<Pack, GenerationError>)
    requires SameDefinition(a, b) && Fails(dice, seeding, a, field) && Outcome(dice, seeding, b, r)
    ensures r.Err? && r.error.MissingField?
  {
    hide Fails, AllHold, Complete, Solution, Finished;
    match r {
      case Ok(pack) =>
        SolutionIsComplete(dice, seeding, b, pack);
        FailureIsFatal(dice, seeding, a, b, pack, field);
      case Err(Unresolved(_)) =>
        var pack :| Finished(dice, seeding, b, pack);
        FinishedIsComplete(dice, seeding, b, pack);
        FailureIsFatal(dice, seeding, a, b, pack, field);
      case Err(MissingField(_)) =>
    }
  }

  lemma OrderableIsResolved(dice: Dice, seeding: Seeding, def: IndustryPackDefinition, r: Result<Pack, GenerationError>)
    requires def.Valid() && Outcome(dice, seeding, def, r) && Orderable(def.datasets)
    ensures r.Ok? || r.error.MissingField?
  {
    if r.Err? && r.error.Unresolved? {
      var ids := r.error.datasetIds;
      assert ids[0] in ids;
      var d :| d in def.datasets && d.datasetId == ids[0] && !Buildable(def.datasets, d);
      OrderableIsBuildable(def.datasets, d);
    }
  }

  /**
   Exactly when generation ends how: with the pack if there is a dependency order and a solution; over a missing field if
   some dataset an order reaches looks one up in vain; and otherwise naming what no order reaches.
   */
  lemma GenerationIsExact(dice: Dice, seeding: Seeding, def: IndustryPackDefinition, r: Result<Pack, GenerationError>)
    requires def.Valid() && Outcome(dice, seeding, def, r)
    ensures r.Ok? <==> Orderable(def.datasets) && exists pack :: Solution(dice, seeding, def, pack)
    ensures r.Err? && r.error.MissingField? <==> exists field :: Fails(dice, seeding, def, field)
  {
    hide Fails, Solution, Orderable, Finished, NamesUnbuildable, AllHold, Complete;
    if field :| Fails(dice, seeding, def, field) {
      FailureShows(dice, seeding, def, def, field, r);
    }
    if Orderable(def.datasets) {
      OrderableIsResolved(dice, seeding, def, r);
      if pack :| Solution(dice, seeding, def, pack) {
        SolutionIsComplete(dice, seeding, def, pack);
        if r.Err? { FailureIsFatal(dice, seeding, def, def, pack, r.error.field); }
      }
    }
  }

  /**
   Listing the same datasets in another order generates the same pack, or fails as well: over a missing field as before, or
   naming the same datasets.
   */
  lemma ReorderingIsIrrelevant(dice: Dice, seeding: Seeding, a: IndustryPackDefinition, b: IndustryPackDefinition,
      ra: Result<Pack, GenerationError>, rb: Result<Pack, GenerationError>)
    requires a.Valid() && b.Valid() && a.packId == b.packId && a.version == b.version && a.seed == b.seed
    requires multiset(a.datasets) == multiset(b.datasets)
    requires Outcome(dice, seeding, a, ra) && Outcome(dice, seeding, b, rb)
    ensures ra.Ok? <==> rb.Ok?
    ensures ra.Ok? ==> ra == rb
    ensures ra.Err? ==> (ra.error.MissingField? <==> rb.error.MissingField?)
    ensures ra.Err? && ra.error.Unresolved? ==> forall id :: id in ra.error.datasetIds <==> id in rb.error.datasetIds
  {
    hide Fails, Solution, Orderable, Finished, FieldsResolve, NamesUnbuildable;
    SameDatasets(a.datasets, b.datasets);
    if ra.Err? && ra.error.MissingField? { FailureShows(dice, seeding, a, b, ra.error.field, rb); }
    if rb.Err? && rb.error.MissingField? { FailureShows(dice, seeding, b, a, rb.error.field, ra); }
    if ra.Ok? {
      OrderableEitherWay(a.datasets, b.datasets);
      OrderableIsResolved(dice, seeding, b, rb);
      DeclarationOrderIsIrrelevant(dice, seeding, a, b, ra.value, rb.value);
    } else if rb.Ok? {
      OrderableEitherWay(b.datasets, a.datasets);
      OrderableIsResolved(dice, seeding, a, ra);
    } else if ra.error.Unresolved? {
      SameUnbuildable(a.datasets, b.datasets, ra.error.datasetIds, rb.error.datasetIds);
    }
  }

  lemma SameUnbuildable(a: seq<DatasetBlueprint>, b: seq<DatasetBlueprint>, ids: seq<string>, others: seq<string>)
    requires (forall d :: d in a <==> d in b) && NamesUnbuildable(a, ids) && NamesUnbuildable(b, others)
    ensures forall id :: id in ids <==> id in others
  {
    forall d ensures Buildable(a, d) <==> Buildable(b, d) {
      if Buildable(a, d) { BuildableEitherWay(a, b, d); }
      if Buildable(b, d) { BuildableEitherWay(b, a, d); }
    }
  }

  lemma BuildableEitherWay(a: seq<DatasetBlueprint>, b: seq<DatasetBlueprint>, d: DatasetBlueprint)
    requires (forall d :: d in a <==> d in b) && Buildable(a, d)
    ensures Buildable(b, d)
  {
    var order :| Ordered(order, a) && d in order;
    assert Ordered(order, b);
  }

  lemma OrderableEitherWay(a: seq<DatasetBlueprint>, b: seq<DatasetBlueprint>)
    requires (forall d :: d in a <==> d in b) && Ids(a) == Ids(b) && Orderable(a)
    ensures Orderable(b)
  {
  }
}
