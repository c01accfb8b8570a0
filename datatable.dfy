/** `Datatable`: the data table of a result page, read in one of its layouts
    (tabbed panes, a horizontally scrolling table, a vertically scrolling
    table or a plain chart table) into a list of records. The page is
    abstracted to what the CSS selections of the code return. */
module Datatables {
  import opened Results
  import opened PyStr
  import opened CellParsers
  import opened Sheets
  import opened DictRecords

  /** A `.clickable` element inside a row's cells, with its `onclick`
      attribute. */
  datatype Clickable = Clickable(onclick: Option<string>)

  /** A `tbody tr`: the texts of its `td` cells, and its first
      `td .clickable` element. */
  datatype BodyRow = BodyRow(cells: seq<string>, clickable: Option<Clickable>)

  /** A table region. */
  datatype Region = Region(
    leftBodyRows: seq<string>,         // `.DTFC_LeftBodyWrapper tbody tr` texts
    scrollHeads: seq<string>,          // `.dataTables_scrollHead th` texts
    scrollBodyRows: seq<seq<string>>,  // `.dataTables_scrollBody tbody tr`, their `td` texts
    headers: seq<string>,              // `th` texts
    bodyRows: seq<BodyRow>,            // `tbody tr`
    hasClickable: bool)                // some `td .clickable` in the region

  /** A `.table_switch li` tab: its text and the text of a nested
      `.visible_normal` element, if any. */
  datatype Tab = Tab(text: string, visibleNormal: Option<string>)

  /** The page. */
  datatype Document = Document(
    hasTableSwitch: bool,              // some `.table_switch`
    tabs: seq<Tab>,                    // `.table_switch li`
    wrappers: seq<Region>,             // `.dataTables_wrapper`
    hasScrollWrapper: bool,            // some `.DTFC_ScrollWrapper`
    verticalWrapper: Option<Region>,   // `#DataTables_Table_0_wrapper`
    chartTables: seq<Region>)          // `.chart.table.scrolling`

  /** One cell of a long-format table: (row, column label, value). */
  type Triple = (RowKey, string, CellValue)

  // ------------------------------------------------------------ extractors

  function ParseTexts(ts: seq<string>): (r: seq<string>)
    ensures |r| == |ts| && forall i :: 0 <= i < |ts| ==> r[i] == ParseText(ts[i])
  {
    seq(|ts|, i requires 0 <= i < |ts| => ParseText(ts[i]))
  }

  /** `l[1:]`. */
  function Tail<T>(l: seq<T>): seq<T> {
    if l == [] then [] else l[1..]
  }

  /** `[parse_value(x) for x in cells]`. */
  function ParseCells(cells: seq<string>): Result<seq<CellValue>> {
    MapResult(cells, ParseValue)
  }

  /** `zip(ids, labels)`. */
  function RowKeys(ids: seq<Option<string>>, labels: seq<string>): (r: seq<RowKey>)
    ensures |r| == Min(|ids|, |labels|) && forall i :: 0 <= i < |r| ==> r[i] == RowKey(ids[i], labels[i])
  {
    seq(Min(|ids|, |labels|), i requires 0 <= i < Min(|ids|, |labels|) => RowKey(ids[i], labels[i]))
  }

  function NoIds(n: nat): (r: seq<Option<string>>)
    ensures |r| == n && forall i :: 0 <= i < n ==> r[i].None?
  {
    seq(n, _ => None)
  }

  /** `_parse_horizontal_scroll_table`: labels from the frozen left column,
      every scroll-head column, no row ids. */
  function HorizontalTriples(t: Region): Result<seq<Triple>> {
    var labels := ParseTexts(t.leftBodyRows);
    var cols := ParseTexts(t.scrollHeads);
    var values :- MapResult(t.scrollBodyRows, ParseCells);
    var sheet :- NewSheet(RowKeys(NoIds(|labels|), labels), cols, values);
    Ok(LongFormat(sheet))
  }

  /** `x.select_one("td").text`, parsed: the row's label. */
  function RowLabel(r: BodyRow): Result<string> {
    if r.cells == [] then Err(AttributeError("'NoneType' object has no attribute 'text'"))
    else Ok(ParseText(r.cells[0]))
  }

  /** `parse_landsting(x.select_one("td .clickable").get("onclick"))`. */
  function RowId(r: BodyRow): Result<Option<string>> {
    match r.clickable
    case None => Err(AttributeError("'NoneType' object has no attribute 'get'"))
    case Some(Clickable(None)) => Err(TypeError("expected string or buffer"))
    case Some(Clickable(Some(onclick))) => Ok(ParseLandsting(onclick))
  }

  function RowValueCells(rows: seq<BodyRow>): (r: seq<seq<string>>)
    ensures |r| == |rows| && forall i :: 0 <= i < |rows| ==> r[i] == Tail(rows[i].cells)
  {
    seq(|rows|, i requires 0 <= i < |rows| => Tail(rows[i].cells))
  }

  /** The row ids: each row's `landsting` id when the region has a
      clickable element, and otherwise `n` times `None`. */
  function LabelIds(t: Region, n: nat): Result<seq<Option<string>>> {
    if t.hasClickable then MapResult(t.bodyRows, RowId) else Ok(NoIds(n))
  }

  /** The shared body of `_parse_vertical_scroll_table` and
      `_parse_regular_table`, given the header texts: labels from the first
      cell, ids only when some clickable exists, the first header and the
      first cell of each row dropped. */
  function LabelledTriples(t: Region, heads: seq<string>): Result<seq<Triple>> {
    var sheet :- LabelledSheet(t, heads);
    Ok(LongFormat(sheet))
  }

  function LabelledSheet(t: Region, heads: seq<string>): Result<Sheet<RowKey, string, CellValue>> {
    var labels :- RowLabels(t);
    var ids :- LabelIds(t, |labels|);
    var values :- RowValues(t);
    NewSheet(RowKeys(ids, labels), HeadCols(heads), values)
  }

  /** `[parse_text(x.select_one("td").text) for x in value_rows]`. */
  function RowLabels(t: Region): Result<seq<string>> {
    MapResult(t.bodyRows, RowLabel)
  }

  /** The parsed cells of each body row after its first. */
  function RowValues(t: Region): Result<seq<seq<CellValue>>> {
    MapResult(RowValueCells(t.bodyRows), ParseCells)
  }

  /** The parsed header texts after the first. */
  function HeadCols(heads: seq<string>): seq<string> {
    Tail(ParseTexts(heads))
  }

  /** `_parse_vertical_scroll_table`: columns from the scroll head. */
  function VerticalTriples(t: Region): Result<seq<Triple>> {
    LabelledTriples(t, t.scrollHeads)
  }

  /** `_parse_regular_table`: columns from the table's own headers. */
  function RegularTriples(t: Region): Result<seq<Triple>> {
    LabelledTriples(t, t.headers)
  }

  // ------------------------------------------------------------- dispatch

  /** `_parse_tab_text`. */
  function TabText(tab: Tab): string {
    match tab.visibleNormal
    case Some(v) => v
    case None => tab.text
  }

  function TabLabels(tabs: seq<Tab>): (r: seq<string>)
    ensures |r| == |tabs| && forall i :: 0 <= i < |tabs| ==> r[i] == TabText(tabs[i])
  {
    seq(|tabs|, i requires 0 <= i < |tabs| => TabText(tabs[i]))
  }

  /** The record of a tabbed cell: no value is kept. */
  function TabRecord(measure: string, c: Triple): Row {
    map["region_or_unit" := Key(c.0), "select_period" := Text(c.1), "measure" := Text(measure)]
  }

  function TabRecords(measure: string, cs: seq<Triple>): (r: seq<Row>)
    ensures |r| == |cs| && forall k :: 0 <= k < |cs| ==> r[k] == TabRecord(measure, cs[k])
  {
    seq(|cs|, k requires 0 <= k < |cs| => TabRecord(measure, cs[k]))
  }

  /** The records of the first `n` panes, each labelled by its tab; a pane
      is read only when the page has a horizontal-scroll marker. */
  function TabbedRecords(labels: seq<string>, panes: seq<Region>, scroll: bool, n: nat): Result<seq<Row>>
    requires n <= |labels| && n <= |panes|
  {
    if n == 0 then Ok([])
    else
      var init :- TabbedRecords(labels, panes, scroll, n - 1);
      if !scroll then Ok(init)
      else
        var cs :- HorizontalTriples(panes[n - 1]);
        Ok(init + TabRecords(labels[n - 1], cs))
  }

  /** The record of a cell of a plain, vertical or horizontal table. */
  function PlainRecord(c: Triple): Row {
    map["region_or_unit" := Key(c.0), "measure" := Text(c.1), "value" := Value(c.2)]
  }

  function PlainRecords(cs: seq<Triple>): (r: seq<Row>)
    ensures |r| == |cs| && forall k :: 0 <= k < |cs| ==> r[k] == PlainRecord(cs[k])
  {
    seq(|cs|, k requires 0 <= k < |cs| => PlainRecord(cs[k]))
  }

  /** The table of a page without tabs: the vertical-scroll wrapper if
      there is one, or else the last chart table. */
  function PlainTriples(doc: Document): Result<seq<Triple>> {
    match doc.verticalWrapper
    case Some(t) => VerticalTriples(t)
    case None =>
      if doc.chartTables == [] then Err(IndexError("list index out of range"))
      else RegularTriples(doc.chartTables[|doc.chartTables| - 1])
  }

  /** `_parse_values`. */
  function Records(doc: Document): Result<seq<Row>> {
    if doc.hasTableSwitch then
      var labels := TabLabels(doc.tabs);
      if |doc.wrappers| != |labels| then Err(AssertionError("len(sub_tables) == len(sub_table_ids)"))
      else if |doc.wrappers| == 0 then Err(AssertionError("len(sub_tables) > 0"))
      else TabbedRecords(labels, doc.wrappers, doc.hasScrollWrapper, |labels|)
    else if doc.hasScrollWrapper then Err(NotImplementedError(""))
    else
      var cs :- PlainTriples(doc);
      Ok(PlainRecords(cs))
  }

  // -------------------------------------------------------------- methods

  /** The loop that collects `values` in each extractor. */
  method ParseValueRows(rows: seq<seq<string>>) returns (r: Result<seq<seq<CellValue>>>)
    ensures r == MapResult(rows, ParseCells)
  {
    var values: seq<seq<CellValue>> := [];
    var i := 0;
    while i < |rows|
      invariant 0 <= i <= |rows|
      invariant MapResult(rows[..i], ParseCells) == Ok(values)
    {
      var rowValues := ParseCells(rows[i]);
      MapResultSnoc(rows, ParseCells, i);
      if rowValues.Err? {
        MapResultKeepsError(rows, ParseCells, i + 1);
        return Err(rowValues.error);
      }
      values := values + [rowValues.value];
      i := i + 1;
    }
    assert rows[..|rows|] == rows;
    return Ok(values);
  }

  method ParseHorizontalScrollTable(t: Region) returns (r: Result<seq<Triple>>)
    ensures r == HorizontalTriples(t)
  {
    var labels := ParseTexts(t.leftBodyRows);
    var ids := NoIds(|labels|);
    var cols := ParseTexts(t.scrollHeads);
    var values := ParseValueRows(t.scrollBodyRows);
    if values.Err? {
      return Err(values.error);
    }
    var sheet := NewSheet(RowKeys(ids, labels), cols, values.value);
    if sheet.Err? {
      return Err(sheet.error);
    }
    return Ok(LongFormat(sheet.value));
  }

  method ParseLabelledTable(t: Region, heads: seq<string>) returns (r: Result<seq<Triple>>)
    ensures r == LabelledTriples(t, heads)
  {
    var labels := MapResult(t.bodyRows, RowLabel);
    if labels.Err? {
      return Err(labels.error);
    }
    var ids := Ok(NoIds(|labels.value|));
    if t.hasClickable {
      ids := MapResult(t.bodyRows, RowId);
      if ids.Err? {
        return Err(ids.error);
      }
    }
    var cols := Tail(ParseTexts(heads));
    var values := ParseValueRows(RowValueCells(t.bodyRows));
    if values.Err? {
      return Err(values.error);
    }
    var sheet := NewSheet(RowKeys(ids.value, labels.value), cols, values.value);
    if sheet.Err? {
      return Err(sheet.error);
    }
    return Ok(LongFormat(sheet.value));
  }

  /** The loop that appends one record per cell of a pane. */
  method AppendTabRecords(data: seq<Row>, measure: string, cs: seq<Triple>) returns (r: seq<Row>)
    ensures r == data + TabRecords(measure, cs)
  {
    r := data;
    var k := 0;
    while k < |cs|
      invariant 0 <= k <= |cs|
      invariant r == data + TabRecords(measure, cs[..k])
    {
      assert TabRecords(measure, cs[..k + 1]) == TabRecords(measure, cs[..k]) + [TabRecord(measure, cs[k])];
      r := r + [TabRecord(measure, cs[k])];
      k := k + 1;
    }
    assert cs[..|cs|] == cs;
  }

  /** The loop over the tabs and their panes. */
  method ParseTabbed(labels: seq<string>, panes: seq<Region>, scroll: bool) returns (r: Result<seq<Row>>)
    requires |labels| == |panes|
    ensures r == TabbedRecords(labels, panes, scroll, |labels|)
  {
    var data: seq<Row> := [];
    var i := 0;
    while i < |labels|
      invariant 0 <= i <= |labels|
      invariant TabbedRecords(labels, panes, scroll, i) == Ok(data)
    {
      var next := ReadPane(labels, panes, scroll, i, data);
      if next.Err? {
        TabbedKeepsError(labels, panes, scroll, i + 1, |labels|);
        return next;
      }
      data := next.value;
      i := i + 1;
    }
    return Ok(data);
  }

  /** One turn of that loop: the pane of tab `i`, read when the page
      scrolls. */
  method ReadPane(labels: seq<string>, panes: seq<Region>, scroll: bool, i: nat, data: seq<Row>) returns (r: Result<seq<Row>>)
    requires i < |labels| && i < |panes| && TabbedRecords(labels, panes, scroll, i) == Ok(data)
    ensures r == TabbedRecords(labels, panes, scroll, i + 1)
  {
    if !scroll {
      TabbedStep(labels, panes, scroll, i, data);
      return Ok(data);
    }
    var cs := ParseHorizontalScrollTable(panes[i]);
    if cs.Err? {
      TabbedStepError(labels, panes, i, data);
      return Err(cs.error);
    }
    TabbedStep(labels, panes, scroll, i, data);
    var rows := AppendTabRecords(data, labels[i], cs.value);
    return Ok(rows);
  }

  /** The loop that appends one record per cell of a plain table. */
  method AppendPlainRecords(cs: seq<Triple>) returns (r: seq<Row>)
    ensures r == PlainRecords(cs)
  {
    r := [];
    var k := 0;
    while k < |cs|
      invariant 0 <= k <= |cs|
      invariant r == PlainRecords(cs[..k])
    {
      assert PlainRecords(cs[..k + 1]) == PlainRecords(cs[..k]) + [PlainRecord(cs[k])];
      r := r + [PlainRecord(cs[k])];
      k := k + 1;
    }
    assert cs[..|cs|] == cs;
  }

  /** `_parse_values`. */
  method ParseValues(doc: Document) returns (r: Result<seq<Row>>)
    ensures r == Records(doc)
  {
    if doc.hasTableSwitch {
      var labels := TabLabels(doc.tabs);
      if |doc.wrappers| != |labels| {
        return Err(AssertionError("len(sub_tables) == len(sub_table_ids)"));
      }
      if |doc.wrappers| == 0 {
        return Err(AssertionError("len(sub_tables) > 0"));
      }
      r := ParseTabbed(labels, doc.wrappers, doc.hasScrollWrapper);
      return;
    }
    if doc.hasScrollWrapper {
      return Err(NotImplementedError(""));
    }
    var cs: Result<seq<Triple>>;
    if doc.verticalWrapper.Some? {
      cs := ParseLabelledTable(doc.verticalWrapper.value, doc.verticalWrapper.value.scrollHeads);
    } else if doc.chartTables == [] {
      return Err(IndexError("list index out of range"));
    } else {
      var t := doc.chartTables[|doc.chartTables| - 1];
      cs := ParseLabelledTable(t, t.headers);
    }
    if cs.Err? {
      return Err(cs.error);
    }
    var data := AppendPlainRecords(cs.value);
    return Ok(data);
  }

  /** `set(l)` turned back into a list: each item once. The order of a
      Python set is left open; this one keeps first occurrences. */
  function Unique<T(==,!new)>(l: seq<T>): (r: seq<T>)
    ensures forall x :: x in r <==> x in l
    ensures forall i, j :: 0 <= i < j < |r| ==> r[i] != r[j]
    decreases |l|
  {
    if l == [] then []
    else
      var rest := Unique(l[..|l| - 1]);
      if l[|l| - 1] in rest then rest else rest + [l[|l| - 1]]
  }

  /** The `measure` field of every record. */
  function MeasureColumn(data: seq<Row>): (r: seq<Field>)
    requires forall i :: 0 <= i < |data| ==> "measure" in data[i]
    ensures |r| == |data| && forall i :: 0 <= i < |data| ==> r[i] == data[i]["measure"]
  {
    seq(|data|, i requires 0 <= i < |data| => data[i]["measure"])
  }

  /** A parsed table with its memoised list of measures. */
  class Datatable {
    const data: seq<Row>
    var measuresCache: Option<seq<Field>>

    /** Every record has a measure, and a filled cache holds the unique
        measures of the records. */
    ghost predicate Valid()
      reads this
    {
      (forall i :: 0 <= i < |data| ==> "measure" in data[i])
      && (measuresCache.Some? ==> measuresCache.value == Unique(MeasureColumn(data)))
    }

    constructor FromRecords(rows: seq<Row>)
      requires forall i :: 0 <= i < |rows| ==> "measure" in rows[i]
      ensures data == rows && measuresCache.None? && Valid()
    {
      data := rows;
      measuresCache := None;
    }

    /** `Datatable(html)`: the records are read once, and the measures are
        not yet computed. */
    static method Parse(doc: Document) returns (r: Result<Datatable>)
      ensures r.Ok? <==> Records(doc).Ok?
      ensures r.Err? ==> r.error == Records(doc).error
      ensures r.Ok? ==> fresh(r.value)
      ensures r.Ok? ==> r.value.data == Records(doc).value && r.value.measuresCache.None? && r.value.Valid()
    {
      var rows := ParseValues(doc);
      if rows.Err? {
        return Err(rows.error);
      }
      RecordsHaveMeasure(doc);
      var t := new Datatable.FromRecords(rows.value);
      return Ok(t);
    }

    /** `measures`: computed on first use and then served from the cache;
        each measure once. */
    method Measures() returns (ms: seq<Field>)
      requires Valid()
      modifies this
      ensures Valid() && ms == Unique(MeasureColumn(data))
      ensures old(measuresCache).Some? ==> ms == old(measuresCache).value
      ensures measuresCache == Some(ms)
    {
      if measuresCache.None? {
        measuresCache := Some(Unique(MeasureColumn(data)));
      }
      ms := measuresCache.value;
    }
  }

  // ---------------------------------------------------------------- lemmas

  lemma {:induction false} TabbedKeepsError(labels: seq<string>, panes: seq<Region>, scroll: bool, n: nat, m: nat)
    requires n <= m <= |labels| && m <= |panes|
    requires TabbedRecords(labels, panes, scroll, n).Err?
    ensures TabbedRecords(labels, panes, scroll, m) == TabbedRecords(labels, panes, scroll, n)
    decreases m - n
  {
    if n < m {
      TabbedKeepsError(labels, panes, scroll, n, m - 1);
    }
  }

  /** One more pane: its records are appended when the page scrolls. */
  lemma TabbedStep(labels: seq<string>, panes: seq<Region>, scroll: bool, i: nat, data: seq<Row>)
    requires i < |labels| && i < |panes| && TabbedRecords(labels, panes, scroll, i) == Ok(data)
    requires scroll ==> HorizontalTriples(panes[i]).Ok?
    ensures TabbedRecords(labels, panes, scroll, i + 1) ==
      if scroll then Ok(data + TabRecords(labels[i], HorizontalTriples(panes[i]).value)) else Ok(data)
  {
  }

  /** A pane that cannot be read fails the tabs read so far. */
  lemma TabbedStepError(labels: seq<string>, panes: seq<Region>, i: nat, data: seq<Row>)
    requires i < |labels| && i < |panes| && TabbedRecords(labels, panes, true, i) == Ok(data)
    requires HorizontalTriples(panes[i]).Err?
    ensures TabbedRecords(labels, panes, true, i + 1) == Err(HorizontalTriples(panes[i]).error)
  {
  }

  /** Records of tabs carry exactly the keys `region_or_unit`,
      `select_period` and `measure`; records of the other layouts carry
      `region_or_unit`, `measure` and `value`. */
  lemma RecordKeys(measure: string, c: Triple)
    ensures TabRecord(measure, c).Keys == {"region_or_unit", "select_period", "measure"}
    ensures "value" !in TabRecord(measure, c)
    ensures PlainRecord(c).Keys == {"region_or_unit", "measure", "value"}
  {
  }

  /** With every pane read, the tabbed records are the panes' records in
      order, each pane's labelled with its own tab. */
  lemma {:induction false} TabbedRecordsSpec(labels: seq<string>, panes: seq<Region>, n: nat)
    requires n <= |labels| && n <= |panes|
    requires forall i :: 0 <= i < n ==> HorizontalTriples(panes[i]).Ok?
    ensures TabbedRecords(labels, panes, true, n) == Ok(Flatten(seq(n, i requires 0 <= i < n =>
      TabRecords(labels[i], HorizontalTriples(panes[i]).value))))
  {
    if n > 0 {
      TabbedRecordsSpec(labels, panes, n - 1);
      var blocks := seq(n, i requires 0 <= i < n => TabRecords(labels[i], HorizontalTriples(panes[i]).value));
      assert blocks[..n - 1] == seq(n - 1, i requires 0 <= i < n - 1 =>
        TabRecords(labels[i], HorizontalTriples(panes[i]).value));
    }
  }

  /** Panes yield records only when the page has a horizontal-scroll
      marker: without one, tabbed pages have no records at all. */
  lemma {:induction false} TabbedWithoutScroll(labels: seq<string>, panes: seq<Region>, n: nat)
    requires n <= |labels| && n <= |panes|
    ensures TabbedRecords(labels, panes, false, n) == Ok([])
  {
    if n > 0 {
      TabbedWithoutScroll(labels, panes, n - 1);
    }
  }

  /** Every record of `_parse_values` has a `measure`. */
  lemma RecordsHaveMeasure(doc: Document)
    ensures Records(doc).Ok? ==> forall i :: 0 <= i < |Records(doc).value| ==> "measure" in Records(doc).value[i]
  {
    if Records(doc).Ok? && doc.hasTableSwitch {
      var labels := TabLabels(doc.tabs);
      TabbedRecordsMeasures(labels, doc.wrappers, doc.hasScrollWrapper, |labels|);
    }
  }

  /** Every tabbed record is a tab record of some pane's label. */
  lemma {:induction false} TabbedRecordsMeasures(labels: seq<string>, panes: seq<Region>, scroll: bool, n: nat)
    requires n <= |labels| && n <= |panes|
    ensures TabbedRecords(labels, panes, scroll, n).Ok? ==>
      MeasuredBy(TabbedRecords(labels, panes, scroll, n).value, labels, n)
  {
    if n > 0 {
      TabbedRecordsMeasures(labels, panes, scroll, n - 1);
      var rs := TabbedRecords(labels, panes, scroll, n);
      if rs.Ok? {
        var init := TabbedRecords(labels, panes, scroll, n - 1).value;
        if scroll {
          TabbedStep(labels, panes, scroll, n - 1, init);
          MeasuredByAppend(labels, n, init, HorizontalTriples(panes[n - 1]).value);
        } else {
          TabbedStep(labels, panes, scroll, n - 1, init);
          MeasuredByWiden(labels, n, init);
        }
      }
    }
  }

  /** Every record has exactly the keys of a tab record, and its measure is
      one of the first `n` labels. */
  predicate MeasuredBy(rs: seq<Row>, labels: seq<string>, n: nat)
    requires n <= |labels|
  {
    forall k :: 0 <= k < |rs| ==>
      rs[k].Keys == {"region_or_unit", "select_period", "measure"}
      && exists i :: 0 <= i < n && rs[k]["measure"] == Text(labels[i])
  }

  lemma MeasuredByWiden(labels: seq<string>, n: nat, rs: seq<Row>)
    requires 0 < n <= |labels| && MeasuredBy(rs, labels, n - 1)
    ensures MeasuredBy(rs, labels, n)
  {
    forall k | 0 <= k < |rs|
      ensures rs[k].Keys == {"region_or_unit", "select_period", "measure"}
      ensures exists i :: 0 <= i < n && rs[k]["measure"] == Text(labels[i])
    {
      assert rs[k].Keys == {"region_or_unit", "select_period", "measure"}
        && exists i :: 0 <= i < n - 1 && rs[k]["measure"] == Text(labels[i]);
      var i :| 0 <= i < n - 1 && rs[k]["measure"] == Text(labels[i]);
      assert 0 <= i < n;
    }
  }

  lemma MeasuredByAppend(labels: seq<string>, n: nat, init: seq<Row>, cs: seq<Triple>)
    requires 0 < n <= |labels| && MeasuredBy(init, labels, n - 1)
    ensures MeasuredBy(init + TabRecords(labels[n - 1], cs), labels, n)
  {
    MeasuredByWiden(labels, n, init);
    var added := TabRecords(labels[n - 1], cs);
    var rs := init + added;
    forall k | 0 <= k < |rs|
      ensures rs[k].Keys == {"region_or_unit", "select_period", "measure"}
      ensures exists i :: 0 <= i < n && rs[k]["measure"] == Text(labels[i])
    {
      if k < |init| {
        assert rs[k] == init[k];
      } else {
        assert rs[k] == added[k - |init|];
        TabRecordShape(labels[n - 1], cs[k - |init|]);
        assert rs[k]["measure"] == Text(labels[n - 1]);
      }
    }
  }

  lemma TabRecordShape(measure: string, c: Triple)
    ensures TabRecord(measure, c).Keys == {"region_or_unit", "select_period", "measure"}
    ensures TabRecord(measure, c)["measure"] == Text(measure)
  {
  }

  /** A tabbed page: the tab and pane counts must agree and be non-zero;
      then, with a horizontal-scroll marker, every record's measure is its
      pane's tab label and the count is the sum of the panes' cell counts,
      and without one there are no records. None of them has a value. */
  lemma TabbedDispatch(doc: Document)
    requires doc.hasTableSwitch
    ensures |doc.wrappers| != |doc.tabs| || |doc.wrappers| == 0 ==> Records(doc).Err? && Records(doc).error.AssertionError?
    ensures |doc.wrappers| == |doc.tabs| > 0 && !doc.hasScrollWrapper ==> Records(doc) == Ok([])
    ensures (|doc.wrappers| == |doc.tabs| > 0 && doc.hasScrollWrapper
               && forall i :: 0 <= i < |doc.wrappers| ==> HorizontalTriples(doc.wrappers[i]).Ok?) ==>
      Records(doc) == Ok(Flatten(seq(|doc.tabs|, i requires 0 <= i < |doc.tabs| =>
        TabRecords(TabText(doc.tabs[i]), HorizontalTriples(doc.wrappers[i]).value))))
    ensures Records(doc).Ok? ==> forall k :: 0 <= k < |Records(doc).value| ==> "value" !in Records(doc).value[k]
  {
    var labels := TabLabels(doc.tabs);
    if |doc.wrappers| == |labels| > 0 {
      var rs := TabbedRecords(labels, doc.wrappers, doc.hasScrollWrapper, |labels|);
      assert Records(doc) == rs;
      TabbedWithoutScroll(labels, doc.wrappers, |labels|);
      TabbedRecordsMeasures(labels, doc.wrappers, doc.hasScrollWrapper, |labels|);
      if rs.Ok? {
        MeasuredByNoValue(rs.value, labels, |labels|);
      }
      if doc.hasScrollWrapper && forall i :: 0 <= i < |doc.wrappers| ==> HorizontalTriples(doc.wrappers[i]).Ok? {
        TabbedScrollRecords(doc);
      }
    }
  }

  lemma TabbedScrollRecords(doc: Document)
    requires doc.hasTableSwitch && |doc.wrappers| == |doc.tabs| > 0 && doc.hasScrollWrapper
    requires forall i :: 0 <= i < |doc.wrappers| ==> HorizontalTriples(doc.wrappers[i]).Ok?
    ensures Records(doc) == Ok(Flatten(seq(|doc.tabs|, i requires 0 <= i < |doc.tabs| =>
        TabRecords(TabText(doc.tabs[i]), HorizontalTriples(doc.wrappers[i]).value))))
  {
    var labels := TabLabels(doc.tabs);
    TabbedRecordsSpec(labels, doc.wrappers, |labels|);
    assert seq(|labels|, i requires 0 <= i < |labels| => TabRecords(labels[i], HorizontalTriples(doc.wrappers[i]).value))
      == seq(|doc.tabs|, i requires 0 <= i < |doc.tabs| => TabRecords(TabText(doc.tabs[i]), HorizontalTriples(doc.wrappers[i]).value));
  }

  lemma MeasuredByNoValue(rs: seq<Row>, labels: seq<string>, n: nat)
    requires n <= |labels| && MeasuredBy(rs, labels, n)
    ensures forall k :: 0 <= k < |rs| ==> "value" !in rs[k]
  {
    forall k | 0 <= k < |rs| ensures "value" !in rs[k] {
      assert rs[k].Keys == {"region_or_unit", "select_period", "measure"};
    }
  }

  /** A page without tabs: a horizontal-scroll marker raises
      NotImplementedError; otherwise the vertical wrapper or else the last
      chart table is read, one record with measure and value per cell. */
  lemma PlainDispatch(doc: Document)
    requires !doc.hasTableSwitch
    ensures doc.hasScrollWrapper ==> Records(doc) == Err(NotImplementedError(""))
    ensures !doc.hasScrollWrapper && doc.verticalWrapper.None? && doc.chartTables == [] ==>
      Records(doc).Err? && Records(doc).error.IndexError?
    ensures !doc.hasScrollWrapper ==>
      (Records(doc).Ok? <==> PlainTriples(doc).Ok?)
      && (Records(doc).Ok? ==> Records(doc).value == PlainRecords(PlainTriples(doc).value))
    ensures !doc.hasScrollWrapper && doc.verticalWrapper.Some? ==> PlainTriples(doc) == VerticalTriples(doc.verticalWrapper.value)
    ensures !doc.hasScrollWrapper && doc.verticalWrapper.None? && doc.chartTables != [] ==>
      PlainTriples(doc) == RegularTriples(doc.chartTables[|doc.chartTables| - 1])
  {
  }

  /** The ids of a labelled table: all `None` unless the region has a
      clickable element, and then each row's `parse_landsting` result. */
  lemma LabelledIds(t: Region, heads: seq<string>)
    requires MapResult(t.bodyRows, RowLabel).Ok?
    requires MapResult(RowValueCells(t.bodyRows), ParseCells).Ok?
    ensures var labels := MapResult(t.bodyRows, RowLabel).value;
      var values := MapResult(RowValueCells(t.bodyRows), ParseCells).value;
      var cols := Tail(ParseTexts(heads));
      !t.hasClickable ==>
        LabelledTriples(t, heads) == (var sheet :- NewSheet(RowKeys(NoIds(|labels|), labels), cols, values); Ok(LongFormat(sheet)))
    ensures t.hasClickable ==>
      (MapResult(t.bodyRows, RowId).Err? ==> LabelledTriples(t, heads) == Err(MapResult(t.bodyRows, RowId).error))
    ensures t.hasClickable && (exists i :: 0 <= i < |t.bodyRows| && t.bodyRows[i].clickable.None?) ==>
      LabelledTriples(t, heads).Err?
    ensures t.hasClickable && MapResult(t.bodyRows, RowId).Ok? ==>
      var ids := MapResult(t.bodyRows, RowId).value;
      |ids| == |t.bodyRows|
      && (forall i :: 0 <= i < |t.bodyRows| ==>
            t.bodyRows[i].clickable.Some? && t.bodyRows[i].clickable.value.onclick.Some?
            && ids[i] == ParseLandsting(t.bodyRows[i].clickable.value.onclick.value))
      && LabelledTriples(t, heads) ==
           (var sheet :- NewSheet(RowKeys(ids, MapResult(t.bodyRows, RowLabel).value), Tail(ParseTexts(heads)),
                                  MapResult(RowValueCells(t.bodyRows), ParseCells).value);
            Ok(LongFormat(sheet)))
  {
    MapResultSpec(t.bodyRows, RowId);
    if t.hasClickable && MapResult(t.bodyRows, RowId).Ok? {
      var ids := MapResult(t.bodyRows, RowId).value;
      forall i | 0 <= i < |t.bodyRows|
        ensures t.bodyRows[i].clickable.Some? && t.bodyRows[i].clickable.value.onclick.Some?
          && ids[i] == ParseLandsting(t.bodyRows[i].clickable.value.onclick.value)
      {
        assert RowId(t.bodyRows[i]).Ok?;
      }
    }
  }

  /** The labels of a labelled table: one per body row, the parsed text
      of its first cell (a row without cells raises AttributeError). */
  lemma LabelledRows(t: Region)
    ensures MapResult(t.bodyRows, RowLabel).Ok? <==> forall i :: 0 <= i < |t.bodyRows| ==> t.bodyRows[i].cells != []
    ensures MapResult(t.bodyRows, RowLabel).Ok? ==>
      |MapResult(t.bodyRows, RowLabel).value| == |t.bodyRows|
      && forall i :: 0 <= i < |t.bodyRows| ==>
           t.bodyRows[i].cells != [] && MapResult(t.bodyRows, RowLabel).value[i] == ParseText(t.bodyRows[i].cells[0])
  {
    MapResultSpec(t.bodyRows, RowLabel);
  }

  /** Record `k` of the long format of a sheet: row `k div C`, column
      `k mod C`, cell `k`. */
  lemma SheetLongFormatAt<R, V>(rows: seq<R>, cols: seq<string>, values: seq<seq<V>>)
    requires |cols| > 0 && NewSheet(rows, cols, values).Ok?
    ensures |LongFormat(NewSheet(rows, cols, values).value)| == Min(|rows| * |cols|, |Flatten(values)|)
    ensures forall k :: 0 <= k < |LongFormat(NewSheet(rows, cols, values).value)| ==>
      0 <= k / |cols| < |rows| && LongFormat(NewSheet(rows, cols, values).value)[k] == (rows[k / |cols|], cols[k % |cols|], Flatten(values)[k])
  {
    var sheet := NewSheet(rows, cols, values).value;
    assert sheet == Sheet(rows, cols, values, Flatten(values));
    LongFormatAt(sheet);
    forall k | 0 <= k < |LongFormat(sheet)|
      ensures 0 <= k / |cols| < |rows|
    {
      DivBound(k, |cols|, |rows|);
    }
  }

  /** Record `k` of a labelled table is the row `k div C` with the column
      `k mod C` (the headers after the first) and the `k`-th value cell
      (the cells after each row's first, row by row). */
  lemma LabelledTriplesAt(t: Region, heads: seq<string>, labels: seq<string>, cols: seq<string>, values: seq<seq<CellValue>>, cs: seq<Triple>)
    requires RowLabels(t) == Ok(labels) && RowValues(t) == Ok(values)
    requires cols == HeadCols(heads) && |cols| > 0
    requires LabelledTriples(t, heads) == Ok(cs)
    ensures |cs| == Min(|labels| * |cols|, |Flatten(values)|)
    ensures forall k :: 0 <= k < |cs| ==>
      0 <= k / |cols| < |labels| && cs[k].0.name == labels[k / |cols|] && cs[k].1 == cols[k % |cols|] && cs[k].2 == Flatten(values)[k]
  {
    var ids := LabelIds(t, |labels|).value;
    var keys := RowKeys(ids, labels);
    assert LabelledSheet(t, heads) == NewSheet(keys, cols, values);
    assert cs == LongFormat(NewSheet(keys, cols, values).value);
    LabelledRows(t);
    if t.hasClickable {
      MapResultSpec(t.bodyRows, RowId);
    }
    assert |keys| == |labels|;
    SheetLongFormatAt(keys, cols, values);
    forall k | 0 <= k < |cs|
      ensures 0 <= k / |cols| < |labels| && cs[k].0.name == labels[k / |cols|]
    {
      DivBound(k, |cols|, |labels|);
      assert cs[k].0 == keys[k / |cols|];
    }
  }

  /** Record `k`, of row `k div n`, carries the `parse_landsting` result of
      that row's onclick as its id. */
  predicate IdsFromOnclick(t: Region, cs: seq<Triple>, n: nat)
    requires n > 0
  {
    forall k :: 0 <= k < |cs| ==>
      k / n < |t.bodyRows|
      && t.bodyRows[k / n].clickable.Some? && t.bodyRows[k / n].clickable.value.onclick.Some?
      && cs[k].0.id == ParseLandsting(t.bodyRows[k / n].clickable.value.onclick.value)
  }

  /** When the region has a clickable element, the row key of record `k`
      of a labelled table carries the `parse_landsting` result of its row's
      onclick. */
  lemma LabelledTripleIds(t: Region, heads: seq<string>, labels: seq<string>, cols: seq<string>, values: seq<seq<CellValue>>, cs: seq<Triple>)
    requires RowLabels(t) == Ok(labels) && RowValues(t) == Ok(values)
    requires cols == HeadCols(heads) && |cols| > 0
    requires LabelledTriples(t, heads) == Ok(cs)
    requires t.hasClickable
    ensures IdsFromOnclick(t, cs, |cols|)
  {
    LabelledTriplesAt(t, heads, labels, cols, values, cs);
    LabelledRows(t);
    MapResultSpec(t.bodyRows, RowId);
    var ids := LabelIds(t, |labels|).value;
    var keys := RowKeys(ids, labels);
    assert LabelledSheet(t, heads) == NewSheet(keys, cols, values);
    SheetLongFormatAt(keys, cols, values);
    forall k | 0 <= k < |cs|
      ensures k / |cols| < |t.bodyRows|
        && t.bodyRows[k / |cols|].clickable.Some? && t.bodyRows[k / |cols|].clickable.value.onclick.Some?
        && cs[k].0.id == ParseLandsting(t.bodyRows[k / |cols|].clickable.value.onclick.value)
    {
      var i := k / |cols|;
      assert cs[k].0 == keys[i];
      assert keys[i] == RowKey(ids[i], labels[i]);
      assert ids[i] == RowId(t.bodyRows[i]).value;
    }
  }

  /** Without a clickable element no row key of a labelled table carries
      an id. */
  lemma LabelledTripleNoIds(t: Region, heads: seq<string>, labels: seq<string>, cols: seq<string>, values: seq<seq<CellValue>>, cs: seq<Triple>)
    requires RowLabels(t) == Ok(labels) && RowValues(t) == Ok(values)
    requires cols == HeadCols(heads) && |cols| > 0
    requires LabelledTriples(t, heads) == Ok(cs)
    requires !t.hasClickable
    ensures forall k :: 0 <= k < |cs| ==> cs[k].0.id.None?
  {
    LabelledTriplesAt(t, heads, labels, cols, values, cs);
    var ids := NoIds(|labels|);
    var keys := RowKeys(ids, labels);
    assert LabelledSheet(t, heads) == NewSheet(keys, cols, values);
    SheetLongFormatAt(keys, cols, values);
    forall k | 0 <= k < |cs| ensures cs[k].0.id.None? {
      var i := k / |cols|;
      assert cs[k].0 == keys[i];
    }
  }
}
