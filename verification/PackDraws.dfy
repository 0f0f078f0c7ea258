/** What a generated pack owes to its generator: where it has nulls, that no draw repeats a state, which datasets share a seed. */
module PackDraws {
  import opened Wrappers
  import opened PackDatasets
  import opened PackFactory

  // Whatever it has been asked, the generator's chances are never below the rate, or always.
  ghost predicate NeverBelow(dice: Dice, rate: real) { forall seed, asks :: dice.chance(seed, asks) >= rate }

  ghost predicate AlwaysBelow(dice: Dice, rate: real) { forall seed, asks :: dice.chance(seed, asks) < rate }

  // What the chances say of a cell of the field.
  ghost predicate Told(dice: Dice, field: FieldBlueprint, cell: Cell) {
    && (field.kind != Reference && NeverBelow(dice, field.nullRate) ==> cell != Blank)
    && (field.nullRate > 0.0 && AlwaysBelow(dice, field.nullRate) ==> cell == Blank)
  }

  lemma CellTold(dice: Dice, seed: string, asks: seq<Ask>, field: FieldBlueprint, index: nat, parents: Pack)
    requires field.Valid() && HasParents(field, parents) && CellOf(dice, seed, asks, field, index, parents).Ok?
    ensures Told(dice, field, CellOf(dice, seed, asks, field, index, parents).value)
  {
  }

  lemma {:induction false} RowTold(dice: Dice, seed: string, asks: seq<Ask>, fields: seq<FieldBlueprint>, index: nat, parents: Pack, i: nat)
    requires Ready(fields, parents) && RowOf(dice, seed, asks, fields, index, parents).Ok? && i < |fields|
    requires forall i, j :: 0 <= i < j < |fields| ==> fields[i].name != fields[j].name
    ensures var record := RowOf(dice, seed, asks, fields, index, parents).value.0;
      fields[i].name in record && Told(dice, fields[i], record[fields[i].name])
    decreases |fields|
  {
    hide Told;
    var n := |fields| - 1;
    var before := RowOf(dice, seed, asks, fields[..n], index, parents).value;
    CellTold(dice, seed, before.1, fields[n], index, parents);
    if i < n { RowTold(dice, seed, asks, fields[..n], index, parents, i); }
  }

  lemma {:induction false} RowsTold(dice: Dice, seed: string, fields: seq<FieldBlueprint>, count: nat, parents: Pack, i: nat, row: nat)
    requires Ready(fields, parents) && RowsUpTo(dice, seed, fields, count, parents).Ok? && i < |fields| && row < count
    requires forall i, j :: 0 <= i < j < |fields| ==> fields[i].name != fields[j].name
    ensures var records := RowsUpTo(dice, seed, fields, count, parents).value.0;
      |records| == count && fields[i].name in records[row] && Told(dice, fields[i], records[row][fields[i].name])
  {
    hide Told, RowOf;
    RowsFit(dice, seed, fields, count, parents);
    var before := RowsUpTo(dice, seed, fields, count - 1, parents).value;
    RowsFit(dice, seed, fields, count - 1, parents);
    if row < count - 1 {
      RowsTold(dice, seed, fields, count - 1, parents, i, row);
    } else {
      RowTold(dice, seed, before.1, fields, count - 1, parents, i);
    }
  }

  /**
   In a generated pack no cell drawn for itself is null if the generator's chances are never below the field's null rate, and
   every cell of a field with a positive rate is null if they always are.
   */
  lemma NullsFollowRates(dice: Dice, seeding: Seeding, def: IndustryPackDefinition, pack: Pack, d: DatasetBlueprint, i: nat, row: nat)
    requires Solution(dice, seeding, def, pack) && d in def.datasets && i < |d.fields| && row < d.rowCount
    ensures var field := d.fields[i];
      && d.datasetId in pack && row < |pack[d.datasetId]| && field.name in pack[d.datasetId][row]
      && (field.kind != Reference && NeverBelow(dice, field.nullRate) ==> pack[d.datasetId][row][field.name] != Blank)
      && (field.nullRate > 0.0 && AlwaysBelow(dice, field.nullRate) ==> pack[d.datasetId][row][field.name] == Blank)
  {
    SolutionFits(dice, seeding, def, pack, d);
    RowsTold(dice, SeedOf(seeding, def, d), d.fields, d.rowCount, Parents(pack, d), i, row);
  }

  // --- Draws ---

  // A cell of the field is drawn, or a chance is taken on its being null.
  predicate Draws(field: FieldBlueprint) {
    || field.kind == Choice || field.kind == Integer || field.kind == Timestamp
    || (field.kind == Reference && field.nullRate != 0.0)
  }

  // What is asked for a value of the field.
  function QuestionFor(field: FieldBlueprint): seq<Ask> {
    match field.kind
    case Choice => if field.weights == [] then [Pick(|field.values|)] else [Weighted(field.weights)]
    case Integer => [Between(field.minimum, field.maximum)]
    case Timestamp => [Between(0, 525600)]
    case _ => []
  }

  /** For a cell the generator is asked for a chance, if the field may be null, and then for its value unless the cell is null. */
  lemma CellAsks(dice: Dice, seed: string, asks: seq<Ask>, field: FieldBlueprint, index: nat, parents: Pack)
    requires field.Valid() && HasParents(field, parents) && CellOf(dice, seed, asks, field, index, parents).Ok?
    ensures var chance := if field.kind != Sequence && field.nullRate != 0.0 then [Chance] else [];
      var drawnNull := chance != [] && dice.chance(seed, asks + chance) < field.nullRate;
      && Asked(dice, seed, asks, field) == asks + chance + (if drawnNull then [] else QuestionFor(field))
      && (drawnNull ==> CellOf(dice, seed, asks, field, index, parents).value == Blank)
  {
    assert asks + [] == asks;
  }

  lemma CellDrawsAnew(dice: Dice, seed: string, asks: seq<Ask>, field: FieldBlueprint)
    requires field.Valid()
    ensures asks <= Asked(dice, seed, asks, field)
    ensures Draws(field) <==> asks != Asked(dice, seed, asks, field)
  {
  }

  /** Within a row the generator is asked more and more, so no two cells that draw see it in the same state. */
  lemma {:induction false} RowDrawsAnew(dice: Dice, seed: string, asks: seq<Ask>, fields: seq<FieldBlueprint>, index: nat, parents: Pack, i: nat)
    requires Ready(fields, parents) && RowOf(dice, seed, asks, fields, index, parents).Ok? && i < |fields|
    ensures RowOf(dice, seed, asks, fields[..i], index, parents).Ok?
    ensures var before, after := RowOf(dice, seed, asks, fields[..i], index, parents).value.1, RowOf(dice, seed, asks, fields, index, parents).value.1;
      asks <= before <= after && (Draws(fields[i]) ==> |before| < |after|)
    decreases |fields|
  {
    hide CellOf;
    var n := |fields| - 1;
    CellDrawsAnew(dice, seed, RowOf(dice, seed, asks, fields[..n], index, parents).value.1, fields[n]);
    RowAsksMore(dice, seed, asks, fields[..n], index, parents);
    if i < n {
      RowDrawsAnew(dice, seed, asks, fields[..n], index, parents, i);
      assert fields[..n][..i] == fields[..i];
    }
  }

  lemma {:induction false} RowAsksMore(dice: Dice, seed: string, asks: seq<Ask>, fields: seq<FieldBlueprint>, index: nat, parents: Pack)
    requires Ready(fields, parents) && RowOf(dice, seed, asks, fields, index, parents).Ok?
    ensures asks <= RowOf(dice, seed, asks, fields, index, parents).value.1
  {
    if fields != [] {
      var n := |fields| - 1;
      RowAsksMore(dice, seed, asks, fields[..n], index, parents);
      CellDrawsAnew(dice, seed, RowOf(dice, seed, asks, fields[..n], index, parents).value.1, fields[n]);
    }
  }

  // --- Seeds ---

  ghost predicate SeedsApart(seeding: Seeding) {
    forall p, v, n, d, p', v', n', d' :: seeding(p, v, n, d) == seeding(p', v', n', d') ==> p == p' && v == v' && n == n' && d == d'
  }

  /** Under a seeding without collisions two datasets share a seed exactly if pack, version, pack seed and dataset id are the same. */
  lemma SeedsExactly(seeding: Seeding, a: IndustryPackDefinition, b: IndustryPackDefinition, d: DatasetBlueprint, e: DatasetBlueprint)
    requires SeedsApart(seeding)
    ensures SeedOf(seeding, a, d) == SeedOf(seeding, b, e) <==>
      a.packId == b.packId && a.version == b.version && a.seed == b.seed && d.datasetId == e.datasetId
  {
  }

  // --- References ---

  predicate HasNoReferences(d: DatasetBlueprint) { forall f :: f in d.fields ==> f.kind != Reference }

  lemma {:induction false} AnyOrderWillDo(datasets: seq<DatasetBlueprint>, n: nat)
    requires n <= |datasets| && forall d :: d in datasets ==> HasNoReferences(d)
    ensures Ordered(datasets[..n], datasets)
  {
    forall i | 0 <= i < n ensures datasets[..n][i] in datasets && datasets[..n][i].References() <= Ids(datasets[..n][..i]) {
      assert datasets[..n][i] == datasets[i] && HasNoReferences(datasets[i]);
    }
  }

  lemma NothingToResolve(datasets: seq<DatasetBlueprint>)
    requires forall d :: d in datasets ==> HasNoReferences(d)
    ensures FieldsResolve(datasets)
  {
  }

  /** A definition without reference fields is always generated. */
  lemma WithoutReferencesGenerates(dice: Dice, seeding: Seeding, def: IndustryPackDefinition, r: Result<Pack, GenerationError>)
    requires def.Valid() && Outcome(dice, seeding, def, r) && forall d :: d in def.datasets ==> HasNoReferences(d)
    ensures r.Ok?
  {
    hide Outcome;
    AnyOrderWillDo(def.datasets, |def.datasets|);
    assert def.datasets[..|def.datasets|] == def.datasets;
    assert Orderable(def.datasets);
    NothingToResolve(def.datasets);
    GeneratedIffOrderable(dice, seeding, def, r);
  }

  /** Nothing but the targets of its reference fields keeps a dataset waiting. */
  lemma WaitsForReferencesOnly(pack: Pack, d: DatasetBlueprint)
    ensures CanStart(pack, d) <==> forall f :: f in d.fields && f.kind == Reference ==> f.referenceDataset in pack
  {
  }
}
