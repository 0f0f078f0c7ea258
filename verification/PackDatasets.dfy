/** One synthetic dataset: rows drawn field by field from a generator seeded by the dataset's name. */
module PackDatasets {
  import opened Wrappers

  datatype FieldKind = Sequence | Choice | Integer | Timestamp | Reference

  datatype FieldBlueprint = FieldBlueprint(
    name: string, kind: FieldKind, values: seq<string>, minimum: int, maximum: int, prefix: string,
    referenceDataset: string, referenceField: string, weights: seq<real>, nullRate: real)
  {
    predicate Valid() {
      && name != []
      && (kind == Choice ==> values != [])
      && (weights != [] ==> kind == Choice && |weights| == |values|)
      && 0.0 <= nullRate < 1.0 && (kind == Sequence ==> nullRate == 0.0)
      && (kind == Integer ==> minimum <= maximum)
      && (kind == Reference ==> referenceDataset != [] && referenceField != [])
    }
  }

  datatype DatasetBlueprint = DatasetBlueprint(datasetId: string, rowCount: int, fields: seq<FieldBlueprint>)
  {
    predicate Valid() {
      && datasetId != [] && rowCount > 0 && fields != []
      && (forall i :: 0 <= i < |fields| ==> fields[i].Valid())
      && (forall i, j :: 0 <= i < j < |fields| ==> fields[i].name != fields[j].name)
    }

    function References(): set<string> {
      set f | f in fields && f.kind == Reference :: f.referenceDataset
    }
  }

  // Serial(p, n) is the text p-n with n padded to four digits; Moment(m) is m minutes after the epoch.
  datatype Cell = Blank | Serial(prefix: string, number: int) | Text(value: string) | Number(amount: int) | Moment(minutes: int)

  type Record = map<string, Cell>

  type Pack = map<string, seq<Record>>

  datatype GenerationError = MissingField(field: string) | Unresolved(datasetIds: seq<string>)

  // What may be asked of a random generator, and an arbitrary generator: its answer depends on the seed and on everything
  // asked so far, the present question last.
  datatype Ask = Chance | Pick(count: nat) | Weighted(weights: seq<real>) | Between(low: int, high: int)

  datatype Dice = Dice(chance: (string, seq<Ask>) -> real, number: (string, seq<Ask>) -> nat)

  const MINUTES: int := 525600

  // --- Cells, rows and datasets ---

  predicate IsBlanked(dice: Dice, seed: string, asks: seq<Ask>, field: FieldBlueprint) {
    field.kind != Sequence && field.nullRate != 0.0 && dice.chance(seed, asks + [Chance]) < field.nullRate
  }

  // The questions behind one cell; asked whether or not the answer matters later.
  function Asked(dice: Dice, seed: string, asks: seq<Ask>, field: FieldBlueprint): seq<Ask> {
    var before := if field.kind != Sequence && field.nullRate != 0.0 then asks + [Chance] else asks;
    if IsBlanked(dice, seed, asks, field) then before
    else
      match field.kind
      case Choice => before + [if field.weights != [] then Weighted(field.weights) else Pick(|field.values|)]
      case Integer => before + [Between(field.minimum, field.maximum)]
      case Timestamp => before + [Between(0, MINUTES)]
      case _ => before
  }

  predicate HasParents(field: FieldBlueprint, parents: Pack) {
    field.kind == Reference ==> field.referenceDataset in parents && parents[field.referenceDataset] != []
  }

  function CellOf(dice: Dice, seed: string, asks: seq<Ask>, field: FieldBlueprint, index: nat, parents: Pack)
    : (r: Result<Cell, GenerationError>)
    requires field.Valid() && HasParents(field, parents)
    ensures r.Err? ==> r.error.MissingField?
  {
    var drawn := dice.number(seed, Asked(dice, seed, asks, field));
    if IsBlanked(dice, seed, asks, field) then Ok(Blank)
    else
      match field.kind
      case Sequence => Ok(Serial(field.prefix, index + 1))
      case Choice => Ok(Text(field.values[drawn % |field.values|]))
      case Integer => Ok(Number(field.minimum + drawn % (field.maximum - field.minimum + 1)))
      case Timestamp => Ok(Moment(drawn % (MINUTES + 1)))
      case Reference =>
        var rows := parents[field.referenceDataset];
        var target := rows[index % |rows|];
        if field.referenceField in target then Ok(target[field.referenceField]) else Err(MissingField(field.referenceField))
  }

  predicate Ready(fields: seq<FieldBlueprint>, parents: Pack) {
    forall i :: 0 <= i < |fields| ==> fields[i].Valid() && HasParents(fields[i], parents)
  }

  // The first fields of a row, and what was asked by then.
  function RowOf(dice: Dice, seed: string, asks: seq<Ask>, fields: seq<FieldBlueprint>, index: nat, parents: Pack)
    : (r: Result<(Record, seq<Ask>), GenerationError>)
    requires Ready(fields, parents)
    ensures r.Err? ==> r.error.MissingField?
  {
    if fields == [] then Ok((map[], asks))
    else
      var n := |fields| - 1;
      match RowOf(dice, seed, asks, fields[..n], index, parents)
      case Err(e) => Err(e)
      case Ok((record, soFar)) =>
        match CellOf(dice, seed, soFar, fields[n], index, parents)
        case Err(e) => Err(e)
        case Ok(cell) => Ok((record[fields[n].name := cell], Asked(dice, seed, soFar, fields[n])))
  }

  function RowsUpTo(dice: Dice, seed: string, fields: seq<FieldBlueprint>, count: nat, parents: Pack)
    : (r: Result<(seq<Record>, seq<Ask>), GenerationError>)
    requires Ready(fields, parents)
    ensures r.Err? ==> r.error.MissingField?
  {
    if count == 0 then Ok(([], []))
    else
      match RowsUpTo(dice, seed, fields, count - 1, parents)
      case Err(e) => Err(e)
      case Ok((records, soFar)) =>
        match RowOf(dice, seed, soFar, fields, count - 1, parents)
        case Err(e) => Err(e)
        case Ok((record, asks)) => Ok((records + [record], asks))
  }

  function Rows(dice: Dice, seed: string, dataset: DatasetBlueprint, parents: Pack): (r: Result<seq<Record>, GenerationError>)
    requires dataset.Valid() && Ready(dataset.fields, parents)
    ensures r.Err? ==> r.error.MissingField?
  {
    match RowsUpTo(dice, seed, dataset.fields, dataset.rowCount, parents)
    case Err(e) => Err(e)
    case Ok((records, _)) => Ok(records)
  }

  // --- What the rows hold ---

  // A serial number, a value the blueprint allows, the parent's value at this row modulo the parent's size, or a null.
  predicate Fits(field: FieldBlueprint, index: nat, parents: Pack, cell: Cell)
    requires HasParents(field, parents)
  {
    match field.kind
    case Sequence => cell == Serial(field.prefix, index + 1)
    case Choice => (cell == Blank && field.nullRate > 0.0) || (cell.Text? && cell.value in field.values)
    case Integer => (cell == Blank && field.nullRate > 0.0) || (cell.Number? && field.minimum <= cell.amount <= field.maximum)
    case Timestamp => (cell == Blank && field.nullRate > 0.0) || (cell.Moment? && 0 <= cell.minutes <= MINUTES)
    case Reference =>
      var rows := parents[field.referenceDataset];
      var target := rows[index % |rows|];
      (cell == Blank && field.nullRate > 0.0) || (field.referenceField in target && cell == target[field.referenceField])
  }

  predicate RowFits(fields: seq<FieldBlueprint>, index: nat, parents: Pack, record: Record)
    requires Ready(fields, parents)
  {
    && record.Keys == (set f | f in fields :: f.name)
    && forall i :: 0 <= i < |fields| ==> fields[i].name in record && Fits(fields[i], index, parents, record[fields[i].name])
  }

  lemma CellFits(dice: Dice, seed: string, asks: seq<Ask>, field: FieldBlueprint, index: nat, parents: Pack)
    requires field.Valid() && HasParents(field, parents) && CellOf(dice, seed, asks, field, index, parents).Ok?
    ensures Fits(field, index, parents, CellOf(dice, seed, asks, field, index, parents).value)
  {
  }

  // One more field, of a name not used yet, with a value that fits.
  lemma RowFitsGrows(fields: seq<FieldBlueprint>, index: nat, parents: Pack, record: Record, cell: Cell)
    requires Ready(fields, parents) && fields != [] && RowFits(fields[..|fields| - 1], index, parents, record)
    requires forall i :: 0 <= i < |fields| - 1 ==> fields[i].name != fields[|fields| - 1].name
    requires Fits(fields[|fields| - 1], index, parents, cell)
    ensures RowFits(fields, index, parents, record[fields[|fields| - 1].name := cell])
  {
    hide Fits;
    var n := |fields| - 1;
    var more := record[fields[n].name := cell];
    assert fields == fields[..n] + [fields[n]];
    forall i | 0 <= i < |fields| ensures fields[i].name in more && Fits(fields[i], index, parents, more[fields[i].name]) {
      if i < n { assert fields[..n][i] == fields[i]; }
    }
  }

  lemma {:induction false} RowOfFits(dice: Dice, seed: string, asks: seq<Ask>, fields: seq<FieldBlueprint>, index: nat, parents: Pack)
    requires Ready(fields, parents) && RowOf(dice, seed, asks, fields, index, parents).Ok?
    requires forall i, j :: 0 <= i < j < |fields| ==> fields[i].name != fields[j].name
    ensures RowFits(fields, index, parents, RowOf(dice, seed, asks, fields, index, parents).value.0)
  {
    if fields != [] {
      var n := |fields| - 1;
      RowOfFits(dice, seed, asks, fields[..n], index, parents);
      var before := RowOf(dice, seed, asks, fields[..n], index, parents).value;
      CellFits(dice, seed, before.1, fields[n], index, parents);
      RowFitsGrows(fields, index, parents, before.0, CellOf(dice, seed, before.1, fields[n], index, parents).value);
    }
  }

  predicate AllFit(fields: seq<FieldBlueprint>, parents: Pack, records: seq<Record>)
    requires Ready(fields, parents)
  {
    forall i :: 0 <= i < |records| ==> RowFits(fields, i, parents, records[i])
  }

  lemma AllFitGrows(fields: seq<FieldBlueprint>, parents: Pack, records: seq<Record>, record: Record)
    requires Ready(fields, parents) && AllFit(fields, parents, records) && RowFits(fields, |records|, parents, record)
    ensures AllFit(fields, parents, records + [record])
  {
  }

  /** Every dataset has its row count, and every row exactly the declared fields, each with a value that fits. */
  lemma {:induction false} RowsFit(dice: Dice, seed: string, fields: seq<FieldBlueprint>, count: nat, parents: Pack)
    requires Ready(fields, parents) && RowsUpTo(dice, seed, fields, count, parents).Ok?
    requires forall i, j :: 0 <= i < j < |fields| ==> fields[i].name != fields[j].name
    ensures |RowsUpTo(dice, seed, fields, count, parents).value.0| == count
    ensures AllFit(fields, parents, RowsUpTo(dice, seed, fields, count, parents).value.0)
  {
    if count > 0 {
      RowsFit(dice, seed, fields, count - 1, parents);
      var before := RowsUpTo(dice, seed, fields, count - 1, parents).value;
      var row := RowOf(dice, seed, before.1, fields, count - 1, parents);
      RowOfFits(dice, seed, before.1, fields, count - 1, parents);
      AllFitGrows(fields, parents, before.0, row.value.0);
    }
  }

  // The two packs have the same rows for everything these fields refer to.
  ghost predicate SameParents(fields: seq<FieldBlueprint>, p: Pack, q: Pack)
    requires Ready(fields, p) && Ready(fields, q)
  {
    forall i :: 0 <= i < |fields| && fields[i].kind == Reference ==> p[fields[i].referenceDataset] == q[fields[i].referenceDataset]
  }

  lemma {:induction false} RowLooksAtParentsOnly(dice: Dice, seed: string, asks: seq<Ask>, fields: seq<FieldBlueprint>, index: nat, p: Pack, q: Pack)
    requires Ready(fields, p) && Ready(fields, q) && SameParents(fields, p, q)
    ensures RowOf(dice, seed, asks, fields, index, p) == RowOf(dice, seed, asks, fields, index, q)
  {
    if fields != [] {
      RowLooksAtParentsOnly(dice, seed, asks, fields[..|fields| - 1], index, p, q);
    }
  }

  /** A dataset depends on no dataset but those it refers to. */
  lemma {:induction false} RowsLookAtParentsOnly(dice: Dice, seed: string, fields: seq<FieldBlueprint>, count: nat, p: Pack, q: Pack)
    requires Ready(fields, p) && Ready(fields, q) && SameParents(fields, p, q)
    ensures RowsUpTo(dice, seed, fields, count, p) == RowsUpTo(dice, seed, fields, count, q)
  {
    if count > 0 {
      RowsLookAtParentsOnly(dice, seed, fields, count - 1, p, q);
      if RowsUpTo(dice, seed, fields, count - 1, p).Ok? {
        RowLooksAtParentsOnly(dice, seed, RowsUpTo(dice, seed, fields, count - 1, p).value.1, fields, count - 1, p, q);
      }
    }
  }

  // Every parent row has the referenced field.
  predicate Resolves(field: FieldBlueprint, parents: Pack) {
    field.kind == Reference && field.referenceDataset in parents ==>
      forall i :: 0 <= i < |parents[field.referenceDataset]| ==> field.referenceField in parents[field.referenceDataset][i]
  }

  lemma {:induction false} RowSucceeds(dice: Dice, seed: string, asks: seq<Ask>, fields: seq<FieldBlueprint>, index: nat, parents: Pack)
    requires Ready(fields, parents) && forall i :: 0 <= i < |fields| ==> Resolves(fields[i], parents)
    ensures RowOf(dice, seed, asks, fields, index, parents).Ok?
  {
    if fields != [] {
      RowSucceeds(dice, seed, asks, fields[..|fields| - 1], index, parents);
    }
  }

  lemma {:induction false} RowsSucceed(dice: Dice, seed: string, fields: seq<FieldBlueprint>, count: nat, parents: Pack)
    requires Ready(fields, parents) && forall i :: 0 <= i < |fields| ==> Resolves(fields[i], parents)
    ensures RowsUpTo(dice, seed, fields, count, parents).Ok?
  {
    if count > 0 {
      RowsSucceed(dice, seed, fields, count - 1, parents);
      RowSucceeds(dice, seed, RowsUpTo(dice, seed, fields, count - 1, parents).value.1, fields, count - 1, parents);
    }
  }

  // Some row looks the field up in a parent's row that does not have it.
  predicate LooksInVain(fields: seq<FieldBlueprint>, count: nat, parents: Pack, field: string)
    requires Ready(fields, parents)
  {
    exists i, index :: 0 <= i < |fields| && 0 <= index < count && MissesParent(fields[i], index, parents, field)
  }

  predicate MissesParent(f: FieldBlueprint, index: nat, parents: Pack, field: string)
    requires HasParents(f, parents)
  {
    && f.kind == Reference && f.referenceField == field
    && var rows := parents[f.referenceDataset]; field !in rows[index % |rows|]
  }

  lemma {:induction false} RowFails(dice: Dice, seed: string, asks: seq<Ask>, fields: seq<FieldBlueprint>, index: nat, parents: Pack)
    requires Ready(fields, parents) && RowOf(dice, seed, asks, fields, index, parents).Err?
    ensures var field := RowOf(dice, seed, asks, fields, index, parents).error.field;
      exists i :: 0 <= i < |fields| && MissesParent(fields[i], index, parents, field)
  {
    var n := |fields| - 1;
    if RowOf(dice, seed, asks, fields[..n], index, parents).Err? {
      RowFails(dice, seed, asks, fields[..n], index, parents);
      var i :| 0 <= i < n && MissesParent(fields[..n][i], index, parents, RowOf(dice, seed, asks, fields, index, parents).error.field);
      assert fields[..n][i] == fields[i];
    } else {
      assert MissesParent(fields[n], index, parents, RowOf(dice, seed, asks, fields, index, parents).error.field);
    }
  }

  /** Generation fails only over a field that some row looks up in vain. */
  lemma {:induction false} RowsFail(dice: Dice, seed: string, fields: seq<FieldBlueprint>, count: nat, parents: Pack)
    requires Ready(fields, parents) && RowsUpTo(dice, seed, fields, count, parents).Err?
    ensures LooksInVain(fields, count, parents, RowsUpTo(dice, seed, fields, count, parents).error.field)
  {
    if RowsUpTo(dice, seed, fields, count - 1, parents).Err? {
      RowsFail(dice, seed, fields, count - 1, parents);
    } else {
      RowFails(dice, seed, RowsUpTo(dice, seed, fields, count - 1, parents).value.1, fields, count - 1, parents);
    }
  }

  // --- The loops ---

  // The generator's state is the list of what it was asked.
  method GenerateRow(dice: Dice, seed: string, asks0: seq<Ask>, fields: seq<FieldBlueprint>, index: nat, parents: Pack)
    returns (r: Result<Record, GenerationError>, asks: seq<Ask>)
    requires Ready(fields, parents)
    ensures match RowOf(dice, seed, asks0, fields, index, parents)
      case Err(e) => r == Err(e)
      case Ok((record, after)) => r == Ok(record) && asks == after
  {
    asks := asks0;
    var record: Record := map[];
    for i := 0 to |fields|
      invariant RowOf(dice, seed, asks0, fields[..i], index, parents) == Ok((record, asks))
    {
      assert fields[..i + 1][..i] == fields[..i];
      var field := fields[i];
      match CellOf(dice, seed, asks, field, index, parents) {
        case Err(e) =>
          RowFailsEarly(dice, seed, asks0, fields, i + 1, index, parents);
          return Err(e), asks;
        case Ok(cell) =>
          record := record[field.name := cell];
          asks := Asked(dice, seed, asks, field);
      }
    }
    assert fields[..|fields|] == fields;
    return Ok(record), asks;
  }

  lemma {:induction false} RowFailsEarly(dice: Dice, seed: string, asks: seq<Ask>, fields: seq<FieldBlueprint>, n: nat, index: nat, parents: Pack)
    requires Ready(fields, parents) && n <= |fields| && RowOf(dice, seed, asks, fields[..n], index, parents).Err?
    ensures RowOf(dice, seed, asks, fields, index, parents) == RowOf(dice, seed, asks, fields[..n], index, parents)
    decreases |fields|
  {
    if n < |fields| {
      assert fields[..|fields| - 1][..n] == fields[..n];
      RowFailsEarly(dice, seed, asks, fields[..|fields| - 1], n, index, parents);
    } else {
      assert fields[..n] == fields;
    }
  }

  lemma {:induction false} RowsFailEarly(dice: Dice, seed: string, fields: seq<FieldBlueprint>, n: nat, count: nat, parents: Pack)
    requires Ready(fields, parents) && n <= count && RowsUpTo(dice, seed, fields, n, parents).Err?
    ensures RowsUpTo(dice, seed, fields, count, parents) == RowsUpTo(dice, seed, fields, n, parents)
  {
    if n < count { RowsFailEarly(dice, seed, fields, n, count - 1, parents); }
  }

  method GenerateDataset(dice: Dice, seed: string, dataset: DatasetBlueprint, parents: Pack)
    returns (r: Result<seq<Record>, GenerationError>)
    requires dataset.Valid() && Ready(dataset.fields, parents)
    ensures r == Rows(dice, seed, dataset, parents)
  {
    var records, asks := [], [];
    for index := 0 to dataset.rowCount
      invariant RowsUpTo(dice, seed, dataset.fields, index, parents) == Ok((records, asks))
    {
      var row;
      row, asks := GenerateRow(dice, seed, asks, dataset.fields, index, parents);
      if row.Err? {
        RowsFailEarly(dice, seed, dataset.fields, index + 1, dataset.rowCount, parents);
        return Err(row.error);
      }
      records := records + [row.value];
    }
    return Ok(records);
  }
}
