/** `_parse_result_page`: the records of a result page's table, each given
    its region (filled down from the last row that names a region), its
    unit and the current selection of every dimension it lacks. */
module ResultPage {
  import opened Results
  import opened DictRecords
  import opened Regions
  import opened Dimensions
  import opened Datatables

  /** `Result(value, row)`. */
  datatype Observation = Observation(value: Field, dims: Row)

  /** The row with its region and unit set, and the region that the rows
      after it inherit. */
  function PlaceRow(regions: seq<RegionValue>, current: Field, row: Row): Result<(Row, Field)> {
    if "region_or_unit" !in row then Err(KeyError("region_or_unit"))
    else
      match row["region_or_unit"]
      case Key(RowKey(id, name)) =>
        (match ByLabel(regions, name)
         case Some(region) =>
           Ok((row["region" := Text(region.name)]["unit" := Null]["unit_id" := Null], Text(region.name)))
         case None =>
           if id.None? then Err(AssertionError("region_or_unit_id is not None"))
           else Ok((row["region" := current]["unit" := Text(name)]["unit_id" := Text(id.value)], current)))
      case _ => Err(TypeError("cannot unpack region_or_unit"))
  }

  /** Each dimension the row still lacks, in order, gets the label of its
      current selection. */
  function FillDims(row: Row, dimIds: seq<string>, selection: Selection): Result<Row>
    decreases |dimIds|
  {
    if dimIds == [] then Ok(row)
    else
      var init :- FillDims(row, dimIds[..|dimIds| - 1], selection);
      var id := dimIds[|dimIds| - 1];
      if id in init then Ok(init)
      else if id !in selection then Err(KeyError(id))
      else Ok(init[id := selection[id].1])
  }

  /** One observation, and the region the next row inherits. */
  function Observe(regions: seq<RegionValue>, dimIds: seq<string>, selection: Selection, current: Field, row: Row): Result<(Observation, Field)> {
    var placed :- PlaceRow(regions, current, row);
    var r := placed.0;
    if "value" !in r then Err(KeyError("value"))
    else
      var dims :- FillDims(r - {"value", "region_or_unit"}, dimIds, selection);
      Ok((Observation(r["value"], dims), placed.1))
  }

  /** The observations of the first `n` rows, and the region then current. */
  function ObservationsUpTo(regions: seq<RegionValue>, dimIds: seq<string>, selection: Selection, data: seq<Row>, n: nat): Result<(seq<Observation>, Field)>
    requires n <= |data|
  {
    if n == 0 then Ok(([], Null))
    else
      var acc :- ObservationsUpTo(regions, dimIds, selection, data, n - 1);
      var next :- Observe(regions, dimIds, selection, acc.1, data[n - 1]);
      Ok((acc.0 + [next.0], next.1))
  }

  function Observations(regions: seq<RegionValue>, dimIds: seq<string>, selection: Selection, data: seq<Row>): Result<seq<Observation>> {
    var acc :- ObservationsUpTo(regions, dimIds, selection, data, |data|);
    Ok(acc.0)
  }

  /** `_parse_result_page` on a fetched page: the current selection is read
      first, then the data table. */
  function ParsedResultPage(regions: seq<RegionValue>, dims: seq<DimensionInfo>, page: Elements.Elem, doc: Document): Result<seq<Observation>> {
    var selection :- CurrentSelection(dims, page);
    var data :- Records(doc);
    Observations(regions, DimIds(dims), selection, data)
  }

  function DimIds(dims: seq<DimensionInfo>): (r: seq<string>)
    ensures |r| == |dims| && forall i :: 0 <= i < |dims| ==> r[i] == dims[i].id
  {
    seq(|dims|, i requires 0 <= i < |dims| => dims[i].id)
  }

  // -------------------------------------------------------------- methods

  /** The loop over the dimensions that fills in missing ones. */
  method FillMissing(row: Row, dimIds: seq<string>, selection: Selection) returns (r: Result<Row>)
    ensures r == FillDims(row, dimIds, selection)
  {
    var current := row;
    var i := 0;
    while i < |dimIds|
      invariant 0 <= i <= |dimIds|
      invariant FillDims(row, dimIds[..i], selection) == Ok(current)
    {
      assert dimIds[..i + 1][..i] == dimIds[..i];
      var id := dimIds[i];
      if id !in current {
        if id !in selection {
          FillKeepsError(row, dimIds, selection, i + 1);
          return Err(KeyError(id));
        }
        current := current[id := selection[id].1];
      }
      i := i + 1;
    }
    assert dimIds[..|dimIds|] == dimIds;
    return Ok(current);
  }

  /** One turn of the loop over the records. */
  method ObserveRecord(regions: seq<RegionValue>, dimIds: seq<string>, selection: Selection, current: Field, row: Row)
    returns (r: Result<(Observation, Field)>)
    ensures r == Observe(regions, dimIds, selection, current, row)
  {
    var placed := PlaceRow(regions, current, row);
    if placed.Err? {
      return Err(placed.error);
    }
    var edited := placed.value.0;
    if "value" !in edited {
      return Err(KeyError("value"));
    }
    var value := edited["value"];
    edited := edited - {"value", "region_or_unit"};
    var filled := FillMissing(edited, dimIds, selection);
    if filled.Err? {
      return Err(filled.error);
    }
    return Ok((Observation(value, filled.value), placed.value.1));
  }

  /** The loop over the table's records, carrying the current region. */
  method ParseResultRows(regions: seq<RegionValue>, dimIds: seq<string>, selection: Selection, data: seq<Row>) returns (r: Result<seq<Observation>>)
    ensures r == Observations(regions, dimIds, selection, data)
  {
    var obs: seq<Observation> := [];
    var region: Field := Null;
    var i := 0;
    while i < |data|
      invariant 0 <= i <= |data|
      invariant ObservationsUpTo(regions, dimIds, selection, data, i) == Ok((obs, region))
    {
      var next := ObserveTurn(regions, dimIds, selection, data, i, obs, region);
      if next.Err? {
        ObservationsKeepError(regions, dimIds, selection, data, i + 1, |data|);
        ObservationsOf(regions, dimIds, selection, data);
        return Err(next.error);
      }
      obs, region := next.value.0, next.value.1;
      i := i + 1;
    }
    ObservationsOf(regions, dimIds, selection, data);
    return Ok(obs);
  }

  /** One turn of the loop: record `i` is observed and appended, and its
      region is carried on. */
  method ObserveTurn(regions: seq<RegionValue>, dimIds: seq<string>, selection: Selection, data: seq<Row>, i: nat,
                     obs: seq<Observation>, region: Field) returns (r: Result<(seq<Observation>, Field)>)
    requires i < |data| && ObservationsUpTo(regions, dimIds, selection, data, i) == Ok((obs, region))
    ensures r == ObservationsUpTo(regions, dimIds, selection, data, i + 1)
  {
    var next := ObserveRecord(regions, dimIds, selection, region, data[i]);
    if next.Err? {
      return Err(next.error);
    }
    return Ok((obs + [next.value.0], next.value.1));
  }

  // ---------------------------------------------------------------- lemmas

  /** The observations are the list the loop builds over all records, and
      fail as that loop does. */
  lemma ObservationsOf(regions: seq<RegionValue>, dimIds: seq<string>, selection: Selection, data: seq<Row>)
    ensures ObservationsUpTo(regions, dimIds, selection, data, |data|).Ok? ==>
      Observations(regions, dimIds, selection, data) == Ok(ObservationsUpTo(regions, dimIds, selection, data, |data|).value.0)
    ensures ObservationsUpTo(regions, dimIds, selection, data, |data|).Err? ==>
      Observations(regions, dimIds, selection, data) == Err(ObservationsUpTo(regions, dimIds, selection, data, |data|).error)
  {
  }

  lemma {:induction false} FillKeepsError(row: Row, dimIds: seq<string>, selection: Selection, n: nat)
    requires n <= |dimIds| && FillDims(row, dimIds[..n], selection).Err?
    ensures FillDims(row, dimIds, selection) == FillDims(row, dimIds[..n], selection)
    decreases |dimIds| - n
  {
    if n < |dimIds| {
      assert dimIds[..n + 1][..n] == dimIds[..n];
      FillKeepsError(row, dimIds, selection, n + 1);
    } else {
      assert dimIds[..n] == dimIds;
    }
  }

  lemma {:induction false} ObservationsKeepError(regions: seq<RegionValue>, dimIds: seq<string>, selection: Selection, data: seq<Row>, n: nat, m: nat)
    requires n <= m <= |data| && ObservationsUpTo(regions, dimIds, selection, data, n).Err?
    ensures ObservationsUpTo(regions, dimIds, selection, data, m) == ObservationsUpTo(regions, dimIds, selection, data, n)
    decreases m - n
  {
    if n < m {
      ObservationsKeepError(regions, dimIds, selection, data, n, m - 1);
    }
  }

  /** After filling, the row has every dimension; the ones it had keep
      their fields and the others carry their selection's label. */
  lemma {:induction false} FillDimsSpec(row: Row, dimIds: seq<string>, selection: Selection)
    ensures FillDims(row, dimIds, selection).Ok? <==>
      forall i :: 0 <= i < |dimIds| && dimIds[i] !in row ==> dimIds[i] in selection
    ensures FillDims(row, dimIds, selection).Ok? ==>
      var r := FillDims(row, dimIds, selection).value;
      r.Keys == row.Keys + (set i | 0 <= i < |dimIds| :: dimIds[i])
      && (forall k :: k in row ==> r[k] == row[k])
      && (forall i :: 0 <= i < |dimIds| && dimIds[i] !in row ==> r[dimIds[i]] == selection[dimIds[i]].1)
    decreases |dimIds|
  {
    if dimIds != [] {
      var init := dimIds[..|dimIds| - 1];
      var id := dimIds[|dimIds| - 1];
      FillDimsSpec(row, init, selection);
      assert dimIds == init + [id];
      FillStep(row, init, id, dimIds, selection, FillDims(row, init, selection), FillDims(row, dimIds, selection));
    }
  }

  /** One dimension more: the filling of `init + [id]` from that of
      `init`. */
  lemma FillStep(row: Row, init: seq<string>, id: string, ids: seq<string>, selection: Selection, prev: Result<Row>, r: Result<Row>)
    requires ids == init + [id]
    requires prev.Ok? <==> forall i :: 0 <= i < |init| && init[i] !in row ==> init[i] in selection
    requires prev.Ok? ==>
      prev.value.Keys == row.Keys + (set i | 0 <= i < |init| :: init[i])
      && (forall k :: k in row ==> prev.value[k] == row[k])
      && (forall i :: 0 <= i < |init| && init[i] !in row ==> prev.value[init[i]] == selection[init[i]].1)
    requires r == if prev.Err? || id in prev.value then prev
                  else if id !in selection then Err(KeyError(id))
                  else Ok(prev.value[id := selection[id].1])
    ensures r.Ok? <==> forall i :: 0 <= i < |ids| && ids[i] !in row ==> ids[i] in selection
    ensures r.Ok? ==>
      r.value.Keys == row.Keys + (set i | 0 <= i < |ids| :: ids[i])
      && (forall k :: k in row ==> r.value[k] == row[k])
      && (forall i :: 0 <= i < |ids| && ids[i] !in row ==> r.value[ids[i]] == selection[ids[i]].1)
  {
    var initIds := set i | 0 <= i < |init| :: init[i];
    var allIds := set i | 0 <= i < |ids| :: ids[i];
    assert forall i :: 0 <= i < |init| ==> ids[i] == init[i];
    assert allIds == initIds + {id} by {
      forall x | x in allIds ensures x in initIds + {id} {
        var i :| 0 <= i < |ids| && ids[i] == x;
        if i < |init| {
          assert init[i] == x;
        }
      }
      forall x | x in initIds ensures x in allIds {
        var i :| 0 <= i < |init| && init[i] == x;
        assert ids[i] == x;
      }
      assert ids[|init|] == id;
    }
    if prev.Ok? && id in prev.value && id !in row {
      var j :| 0 <= j < |init| && init[j] == id;
      assert id in selection && prev.value[id] == selection[id].1;
    }
    if prev.Ok? && r.Err? {
      assert id !in prev.value && id !in selection && ids[|init|] == id;
    }
    if r.Ok? {
      forall i | 0 <= i < |ids| && ids[i] !in row ensures ids[i] in selection && r.value[ids[i]] == selection[ids[i]].1 {
        if i < |init| {
          assert init[i] == ids[i];
        }
      }
    }
  }

  /** A row naming a known region sets that region and no unit; any other
      row needs an id and becomes a unit of the current region. */
  lemma PlaceRowSpec(regions: seq<RegionValue>, current: Field, row: Row, id: Option<string>, name: string)
    requires "region_or_unit" in row && row["region_or_unit"] == Key(RowKey(id, name))
    ensures ByLabel(regions, name).Some? ==>
      PlaceRow(regions, current, row) == Ok((row["region" := Text(name)]["unit" := Null]["unit_id" := Null], Text(name)))
    ensures ByLabel(regions, name).None? && id.None? ==> PlaceRow(regions, current, row).Err?
    ensures ByLabel(regions, name).None? && id.Some? ==>
      PlaceRow(regions, current, row) == Ok((row["region" := current]["unit" := Text(name)]["unit_id" := Text(id.value)], current))
  {
    ByLabelName(regions, name);
  }

  /** There is one observation per record. */
  lemma {:induction false} ObservationsLength(regions: seq<RegionValue>, dimIds: seq<string>, selection: Selection, data: seq<Row>, n: nat)
    requires n <= |data|
    ensures ObservationsUpTo(regions, dimIds, selection, data, n).Ok? ==>
      |ObservationsUpTo(regions, dimIds, selection, data, n).value.0| == n
  {
    if n > 0 {
      ObservationsLength(regions, dimIds, selection, data, n - 1);
    }
  }

  /** The `k`-th observation is the `k`-th record observed under the region
      the records before it left current. */
  lemma {:induction false} ObservationAt(regions: seq<RegionValue>, dimIds: seq<string>, selection: Selection, data: seq<Row>, n: nat, k: nat)
    requires k < n <= |data| && ObservationsUpTo(regions, dimIds, selection, data, n).Ok?
    ensures ObservationsUpTo(regions, dimIds, selection, data, k).Ok?
    ensures var before := ObservationsUpTo(regions, dimIds, selection, data, k).value.1;
      Observe(regions, dimIds, selection, before, data[k]).Ok?
      && |ObservationsUpTo(regions, dimIds, selection, data, n).value.0| == n
      && ObservationsUpTo(regions, dimIds, selection, data, n).value.0[k]
         == Observe(regions, dimIds, selection, before, data[k]).value.0
  {
    var acc := ObservationsUpTo(regions, dimIds, selection, data, n - 1);
    ObservationsKeepErrorContra(regions, dimIds, selection, data, n);
    ObservationsLength(regions, dimIds, selection, data, n - 1);
    var next := Observe(regions, dimIds, selection, acc.value.1, data[n - 1]);
    assert ObservationsUpTo(regions, dimIds, selection, data, n) == Ok((acc.value.0 + [next.value.0], next.value.1));
    if k < n - 1 {
      ObservationAt(regions, dimIds, selection, data, n - 1, k);
    }
  }

  /** A record whose label is a known region. */
  predicate NamesRegion(regions: seq<RegionValue>, row: Row) {
    "region_or_unit" in row && row["region_or_unit"].Key? && ByLabel(regions, row["region_or_unit"].key.name).Some?
  }

  /** The region current after `n` records: the label of the last of them
      that names a region, or `None` when none does. */
  lemma {:induction false} FillDown(regions: seq<RegionValue>, dimIds: seq<string>, selection: Selection, data: seq<Row>, n: nat)
    requires n <= |data| && ObservationsUpTo(regions, dimIds, selection, data, n).Ok?
    ensures var current := ObservationsUpTo(regions, dimIds, selection, data, n).value.1;
      (current == Null <==> forall j :: 0 <= j < n ==> !NamesRegion(regions, data[j]))
      && (current != Null ==> exists j :: (0 <= j < n && NamesRegion(regions, data[j])
            && current == Text(data[j]["region_or_unit"].key.name)
            && forall i :: j < i < n ==> !NamesRegion(regions, data[i])))
  {
    if n > 0 {
      var acc := ObservationsUpTo(regions, dimIds, selection, data, n - 1);
      ObservationsKeepErrorContra(regions, dimIds, selection, data, n);
      FillDown(regions, dimIds, selection, data, n - 1);
      var next := Observe(regions, dimIds, selection, acc.value.1, data[n - 1]);
      assert ObservationsUpTo(regions, dimIds, selection, data, n) == Ok((acc.value.0 + [next.value.0], next.value.1));
      ObserveCurrent(regions, dimIds, selection, acc.value.1, data[n - 1]);
      FillDownStep(regions, data, n, acc.value.1, next.value.1);
    }
  }

  /** One record more: it sets the region when it names one and passes the
      inherited one on otherwise. */
  lemma FillDownStep(regions: seq<RegionValue>, data: seq<Row>, n: nat, prev: Field, current: Field)
    requires 0 < n <= |data|
    requires prev == Null <==> forall j :: 0 <= j < n - 1 ==> !NamesRegion(regions, data[j])
    requires prev != Null ==> exists j :: (0 <= j < n - 1 && NamesRegion(regions, data[j])
      && prev == Text(data[j]["region_or_unit"].key.name)
      && forall i :: j < i < n - 1 ==> !NamesRegion(regions, data[i]))
    requires current == if NamesRegion(regions, data[n - 1]) then Text(data[n - 1]["region_or_unit"].key.name) else prev
    ensures current == Null <==> forall j :: 0 <= j < n ==> !NamesRegion(regions, data[j])
    ensures current != Null ==> exists j :: (0 <= j < n && NamesRegion(regions, data[j])
      && current == Text(data[j]["region_or_unit"].key.name)
      && forall i :: j < i < n ==> !NamesRegion(regions, data[i]))
  {
    if NamesRegion(regions, data[n - 1]) {
      assert current != Null;
    } else if prev != Null {
      var j :| 0 <= j < n - 1 && NamesRegion(regions, data[j])
        && prev == Text(data[j]["region_or_unit"].key.name)
        && forall i :: j < i < n - 1 ==> !NamesRegion(regions, data[i]);
      assert forall i :: j < i < n ==> !NamesRegion(regions, data[i]);
    }
  }

  /** The region a record leaves current: its own when it names one, the
      inherited one otherwise. */
  lemma ObserveCurrent(regions: seq<RegionValue>, dimIds: seq<string>, selection: Selection, current: Field, row: Row)
    requires Observe(regions, dimIds, selection, current, row).Ok?
    ensures Observe(regions, dimIds, selection, current, row).value.1 ==
      if NamesRegion(regions, row) then Text(row["region_or_unit"].key.name) else current
  {
    var key := row["region_or_unit"].key;
    PlaceRowSpec(regions, current, row, key.id, key.name);
  }

  /** One observation: the record's value, and its fields with `region`,
      `unit` and `unit_id` set; a record naming a region has no unit, any other is a unit of the
      current region. */
  lemma ObservePlacement(regions: seq<RegionValue>, dimIds: seq<string>, selection: Selection, current: Field, row: Row)
    requires Observe(regions, dimIds, selection, current, row).Ok?
    ensures "region_or_unit" in row && row["region_or_unit"].Key? && "value" in row
    ensures var o := Observe(regions, dimIds, selection, current, row).value.0;
      var key := row["region_or_unit"].key;
      o.value == row["value"]
      && "region" in o.dims && "unit" in o.dims && "unit_id" in o.dims
      && (NamesRegion(regions, row) ==>
            o.dims["region"] == Text(key.name) && o.dims["unit"] == Null && o.dims["unit_id"] == Null)
      && (!NamesRegion(regions, row) ==>
            key.id.Some? && o.dims["region"] == current && o.dims["unit"] == Text(key.name)
            && o.dims["unit_id"] == Text(key.id.value))
  {
    var key := row["region_or_unit"].key;
    PlaceRowSpec(regions, current, row, key.id, key.name);
    var placed := PlaceRow(regions, current, row).value.0;
    ObserveFilled(regions, dimIds, selection, current, row, placed);
    FillDimsSpec(placed - {"value", "region_or_unit"}, dimIds, selection);
  }

  /** The dimensions of one observation: the record's own fields are kept
      and every dimension it lacks carries the label of its selection. */
  lemma ObserveDims(regions: seq<RegionValue>, dimIds: seq<string>, selection: Selection, current: Field, row: Row)
    requires Observe(regions, dimIds, selection, current, row).Ok?
    ensures var o := Observe(regions, dimIds, selection, current, row).value.0;
      (forall k :: k in row && k !in {"value", "region_or_unit", "region", "unit", "unit_id"} ==>
         k in o.dims && o.dims[k] == row[k])
      && (forall i :: 0 <= i < |dimIds| ==> dimIds[i] in o.dims)
      && (forall i :: 0 <= i < |dimIds| && dimIds[i] !in row && dimIds[i] !in {"region", "unit", "unit_id"} ==>
            dimIds[i] in selection && o.dims[dimIds[i]] == selection[dimIds[i]].1)
  {
    var key := row["region_or_unit"].key;
    PlaceRowSpec(regions, current, row, key.id, key.name);
    var placed := PlaceRow(regions, current, row).value.0;
    ObserveFilled(regions, dimIds, selection, current, row, placed);
    var base := placed - {"value", "region_or_unit"};
    FillDimsSpec(base, dimIds, selection);
    assert forall i :: 0 <= i < |dimIds| ==> dimIds[i] in (set j | 0 <= j < |dimIds| :: dimIds[j]);
  }

  /** An observation is the placed record, filled in. */
  lemma ObserveFilled(regions: seq<RegionValue>, dimIds: seq<string>, selection: Selection, current: Field, row: Row, placed: Row)
    requires Observe(regions, dimIds, selection, current, row).Ok?
    requires PlaceRow(regions, current, row).Ok? && PlaceRow(regions, current, row).value.0 == placed
    ensures "value" in placed && FillDims(placed - {"value", "region_or_unit"}, dimIds, selection).Ok?
    ensures Observe(regions, dimIds, selection, current, row).value.0
      == Observation(placed["value"], FillDims(placed - {"value", "region_or_unit"}, dimIds, selection).value)
  {
  }

  /** A failed prefix makes the whole fail, so a successful fold has a
      successful prefix. */
  lemma ObservationsKeepErrorContra(regions: seq<RegionValue>, dimIds: seq<string>, selection: Selection, data: seq<Row>, n: nat)
    requires 0 < n <= |data| && ObservationsUpTo(regions, dimIds, selection, data, n).Ok?
    ensures ObservationsUpTo(regions, dimIds, selection, data, n - 1).Ok?
    ensures Observe(regions, dimIds, selection, ObservationsUpTo(regions, dimIds, selection, data, n - 1).value.1, data[n - 1]).Ok?
  {
  }

  /** A record without a value, as every record of a tabbed table is,
      fails: with KeyError on `value` once its region or unit is placed,
      and with AssertionError first when it is a unit without an id. */
  lemma ValuelessRecordFails(regions: seq<RegionValue>, dimIds: seq<string>, selection: Selection, current: Field, row: Row)
    requires "value" !in row
    ensures Observe(regions, dimIds, selection, current, row).Err?
    ensures NamesRegion(regions, row) ==>
      Observe(regions, dimIds, selection, current, row) == Err(KeyError("value"))
    ensures ("region_or_unit" in row && row["region_or_unit"].Key? && !NamesRegion(regions, row)
             && row["region_or_unit"].key.id.None?) ==>
      Observe(regions, dimIds, selection, current, row) == Err(AssertionError("region_or_unit_id is not None"))
  {
  }

  /** A tabbed page with records yields no observations at all. */
  lemma TabbedPageFails(regions: seq<RegionValue>, dims: seq<DimensionInfo>, page: Elements.Elem, doc: Document)
    requires doc.hasTableSwitch && Records(doc).Ok? && |Records(doc).value| > 0
    ensures ParsedResultPage(regions, dims, page, doc).Err?
  {
    TabbedDispatch(doc);
    var data := Records(doc).value;
    if CurrentSelection(dims, page).Ok? {
      var selection := CurrentSelection(dims, page).value;
      var ids := DimIds(dims);
      ValuelessRecordFails(regions, ids, selection, Null, data[0]);
      ObservationsKeepErrorAt(regions, ids, selection, data);
    }
  }

  /** A page whose first record fails fails as a whole. */
  lemma ObservationsKeepErrorAt(regions: seq<RegionValue>, dimIds: seq<string>, selection: Selection, data: seq<Row>)
    requires |data| > 0 && Observe(regions, dimIds, selection, Null, data[0]).Err?
    ensures Observations(regions, dimIds, selection, data).Err?
  {
    ObservationsKeepError(regions, dimIds, selection, data, 1, |data|);
  }
}
