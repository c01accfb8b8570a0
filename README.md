# Vantetider scraper core, modelled in Dafny

This project models the core of `vantetider/scraper.py`. That file is a
statscraper scraper for the Swedish waiting-time statistics published on
vantetider.se. It turns the HTML of a result page into measured values.
It also turns a user's query into the form posts that fetch those pages.

The model works on an abstract document instead of a parsed HTML tree.
Per table region, the document holds:

- the body rows, each a list of cell texts with its optional `.clickable` `onclick`;
- the header texts, for the scroll head and for the table itself;
- the structural markers (`.table_switch`, `.DTFC_ScrollWrapper`, `#DataTables_Table_0_wrapper`, `td .clickable`).

Form elements are small element records, `Elements.Elem`, with their
attributes, text, children and markup. Everything else is deterministic
processing of strings and lists.

## Layout

| file | module | what it holds |
|---|---|---|
| `results.dfy` | `Results` | Python exceptions as `Result`/`Option`, and the list comprehension that can raise (`MapResult`) |
| `pystr.dfy` | `PyStr` | `str.replace`, `split`, `join`, `strip`, `in`, and the ASCII `\d` and `\w` of Python 2 regular expressions |
| `pyfloat.dfy` | `PyFloat` | `float()` on stripped text, with exact decimal values |
| `cell_parsers.dfy` | `CellParsers` | `parse_value`, `parse_text`, `parse_landsting` |
| `radio_inputs.dfy` | `RadioInputs` | `parse_radio_inputs` |
| `elements.dfy` | `Elements` | form elements, `get_elem_type`, `get_option_value`, `get_option_text` |
| `sheet.dfy` | `Sheets` | `flatten`, `repeat`, the `Sheet` class (`__init__`, `as_dictlist`, `long_format`) |
| `records.dfy` | `DictRecords` | the record dictionaries the tables produce |
| `datatable.dfy` | `Datatables` | `Datatable`: layout dispatch, the three extractors, the memoised `measures`, `get_unique` |
| `dimensions.dfy` | `Dimensions` | `VantetiderDimension.elem_type` and `default_value` (memoised), and `_get_current_selection` |
| `regions.dfy` | `Regions` | `_get_region_slug` and `get_url` |
| `result_page.dfy` | `ResultPage` | the fill-down loop of `_parse_result_page` |
| `query.dfy` | `QueryExpansion` | the query expansion of `_fetch_data`, up to the result-page fetches |
| `catalog.dfy` | `Catalog` | the id derivations of `_fetch_itemslist` and `_fetch_dimensions` |

Where the code loops and appends, the model has a `method` with a loop.
Each such method is proved equal to a function, and the properties are
proved about that function. Memoised properties are fields of a class:

- `Datatables.Datatable.Measures` memoises `measures`;
- `Dimensions.Dimension.ElementType` memoises `elem_type`;
- `Dimensions.Dimension.Default` memoises `default_value`.

## Where the model follows the code rather than its evident intent

- **`Sheet.__init__` (scraper.py:604-610).** The `if` at 604-607 only builds a tuple, so it never raises. Only the first value row's length is checked. Ragged rows are accepted, and `long_format` then truncates like `zip` (`Sheets.RaggedSheetAccepted`).
- **`parse_value` (scraper.py:731).** `"st"` is deleted everywhere in a value, not only as a unit suffix (`CellParsers.ParseValueDropsInnerSt`).
- **Tab panes (scraper.py:511).** A tabbed page without a horizontal-scroll marker yields no records from any of its panes. Nothing is raised once the tab and pane counts pass the asserts at scraper.py:507-508 (`Datatables.TabbedWithoutScroll`, `Datatables.TabbedDispatch`).
- **Tabbed records (scraper.py:514-518).** They have no `"value"` key. So every tabbed result page that has records fails (`ResultPage.TabbedPageFails`). If `_get_current_selection` (scraper.py:311) succeeds, the first record decides how. A record that names a known region gets as far as `row["value"]` at scraper.py:332, which raises KeyError. Any other record is a unit without an id, since horizontal tables give every row the id `None` (scraper.py:544), and fails the assert at scraper.py:326 with AssertionError (`ResultPage.ValuelessRecordFails`).
- **Radio dimensions.** The default of a radio dimension is its first checked input (scraper.py:419). The current selection is the last checked input (scraper.py:373-376). Suppose the group's inputs match the de-duplicated parsed radios position by position, so no value repeats. Then, when two or more of them are checked, the two give different values (`Dimensions.RadioDefaultAndSelectionDiffer`). This need not hold when the same checked input appears twice, the case the comment at scraper.py:720 expects.
- **`default_value` (scraper.py:421-423).** It stores the default before asserting that it is not `None`. A second read therefore returns the stored `None` without raising (`Dimensions.Dimension.Default`).
- **`_get_current_selection` (scraper.py:359-385).** An element type other than select, radio or checkbox does not set `selected_cat` or `selected_label`. The previous dimension's pair is then stored again. On the first dimension the result is UnboundLocalError.
- **Python 2 semantics.**
  - `zip` truncates to the shorter list.
  - `dict(zip(...))` keeps the last pair of a repeated key.
  - `query.keys() == ["region"]` holds only for a query whose single key is `region`.
  - `\w` and `\d` match ASCII only.
  - `"abc".replace("", "")` leaves a text unchanged, so the radio dimension id (scraper.py:84) is its element name.

## Model

| member | source | states |
|---|---|---|
| PyStr.SplitRoundTrip | vantetider/scraper.py:35 | joining the pieces of `s.split(sep)` with `sep` gives `s` back |
| PyStr.JoinSplit | vantetider/scraper.py:35 | `rep.join(s.split(sep))` equals `s.replace(sep, rep)`: split and replace cut at the same places |
| PyFloat.DecimalLiteral | vantetider/scraper.py:739 | `float("a.b")` for digit runs a, b is the exact value of the digits of a and b scaled down by len(b) places |
| PyFloat.DigitsLiteral | vantetider/scraper.py:739 | `float` of a run of digits is that integer |
| PyFloat.NoDigitsNoFloat | vantetider/scraper.py:739 | text with no digit and no `n` or `N` is refused by `float` |
| PyFloat.FloatLiteralSpec | vantetider/scraper.py:739 | `float` accepts exactly the grammar: an optional sign, then `inf`, `infinity` or `nan` in any case, or a mantissa with an optional exponent |
| CellParsers.NormaliseShape | vantetider/scraper.py:728-731 | the normalised text has no `%`, no space and no comma, and no whitespace at either end |
| CellParsers.ParseValueCanonical | vantetider/scraper.py:725-739 | the canonical decimal text `a.b` is read back as its own value |
| CellParsers.ParseValueDecimalComma | vantetider/scraper.py:728-739 | `"a,b%"` is the number a.b |
| CellParsers.ParseValueThousands | vantetider/scraper.py:728-739 | `"a b"` (space as thousands separator) is the integer of the digits ab |
| CellParsers.ParseValueDropsInnerSt | vantetider/scraper.py:731 | `"st"` is removed between digits too: `a + "st" + b` normalises like `a + b` |
| CellParsers.ParseValueBlank | vantetider/scraper.py:728-737 | text of only spaces and `%` is an empty cell (`None`) |
| CellParsers.ParseValueSentinel | vantetider/scraper.py:733-735 | a missing-value word (`Ejdeltagit`, `N/A`, `-`) followed by blanks is returned as that word |
| CellParsers.ParseValueRejectsText | vantetider/scraper.py:739 | leftover text with no digit and no `n` or `N` that is no missing-value word raises ValueError |
| CellParsers.ParseValueFails | vantetider/scraper.py:725-739 | ValueError, naming the normalised text, exactly when that text is no missing-value word, not empty and no float literal |
| CellParsers.ParseValueTwoPoints | vantetider/scraper.py:725-739 | `"1.2.3"` raises ValueError: digits alone do not make a number |
| CellParsers.ParseValueExample1 | vantetider/scraper.py:725-739 | `"12,5%"` is 12.5 |
| CellParsers.ParseValueExample2 | vantetider/scraper.py:725-739 | `"1 234"` is 1234 |
| CellParsers.ParseValueExample3 | vantetider/scraper.py:733-737 | `"- "` is `"-"` and `""` is `None` |
| CellParsers.ParseTextShape | vantetider/scraper.py:741-744 | `parse_text` leaves no newline and no whitespace at either end, and is idempotent |
| CellParsers.ParseLandstingSpec | vantetider/scraper.py:746-752 | the result is the whole (greedy, non-empty) digit run at the leftmost `(this, ` followed by a digit; `None` exactly when there is none |
| CellParsers.ParseLandstingOfCall | vantetider/scraper.py:746-752 | on `name(this, N)` with no `(` in the name, the result is N |
| CellParsers.ParseLandstingExample | vantetider/scraper.py:747-750 | `"handle_click_event_landsting(this, 1)"` gives `"1"` |
| RadioInputs.ParseRadioInputs | vantetider/scraper.py:708-722 | the loop growing `data` and `_values` returns `parse_radio_inputs` of the markup |
| RadioInputs.InputTagsShape | vantetider/scraper.py:713 | every scanned tag starts with `<input` and ends at the first `>` |
| RadioInputs.FindFromSpec | vantetider/scraper.py:713 | the scan stops at the first occurrence of the pattern, and at the end exactly when there is none |
| RadioInputs.NextTag | vantetider/scraper.py:713 | a tag found starts at or after the scan position and closes before the end of the markup |
| RadioInputs.FirstCaptureSpec | vantetider/scraper.py:715-716 | the capture is the non-empty `\w+` run of the leftmost match; IndexError exactly when nothing matches |
| RadioInputs.ParseTagsSpec | vantetider/scraper.py:714-717 | reading the tags succeeds exactly when every tag has a value and an id, one radio per tag in order |
| RadioInputs.DedupDistinct | vantetider/scraper.py:718-721 | no two returned radios share a value |
| RadioInputs.DedupMembers | vantetider/scraper.py:718-721 | every kept radio comes from the input, and every input value is kept |
| RadioInputs.DedupFromInput | vantetider/scraper.py:718-721 | every kept radio is one of the input radios |
| RadioInputs.DedupCoversValues | vantetider/scraper.py:718-721 | every input value is held by some kept radio |
| RadioInputs.DedupFirsts | vantetider/scraper.py:718-721 | each kept radio is the first tag of its value, and every first occurrence is kept |
| RadioInputs.DedupPrefix | vantetider/scraper.py:714-721 | values appear in the order of their first appearance |
| RadioInputs.RadioInputsOk | vantetider/scraper.py:713-716 | `parse_radio_inputs` succeeds exactly when every input tag has a `value` and an `id` capture |
| RadioInputs.RadioInputsSpec | vantetider/scraper.py:713-722 | on success: distinct values, each entry the first tag of its value, every tag's value present |
| Elements.FirstMatchSpec | vantetider/scraper.py:361 | `select_one`: the first matching element in document order, `None` exactly when none matches |
| Elements.ElemTypeSpec | vantetider/scraper.py:652-675 | the type is `radio` for a list whose first input is a radio, `select` for a select, the `type` attribute of an input; anything else raises ValueError or AssertionError |
| Elements.ElemTypeOfGroup | vantetider/scraper.py:657-661 | only the first input of a group is looked at |
| Elements.OptionValueSpec | vantetider/scraper.py:677-691 | the `value` attribute, else the stripped text; an empty result raises ValueError, a missing element AttributeError |
| Elements.OptionTextSpec | vantetider/scraper.py:693-699 | the stripped text; fails only on a missing element |
| Sheets.RepeatAt | vantetider/scraper.py:762-767 | `repeat(l, n)` has len(l)·n items and item i is `l[i div n]` |
| Sheets.RepeatExample | vantetider/scraper.py:764 | `repeat([1,2,3], 2) == [1,1,2,2,3,3]` |
| Sheets.TimesAt | vantetider/scraper.py:641 | `l * n` has len(l)·n items and item i is `l[i mod len(l)]` |
| Sheets.FlattenAt | vantetider/scraper.py:757-760 | flattening rows of c items: item k is row k div c, column k mod c |
| Sheets.FlattenLength | vantetider/scraper.py:757-760 | the flattened list has as many items as all rows together |
| Sheets.NewSheetSpec | vantetider/scraper.py:595-613 | the constructor succeeds exactly when len(rows) == len(values) > 0 and len(cols) == len(values[0]); no other row is checked |
| Sheets.LongFormatAt | vantetider/scraper.py:638-643 | record k is (rows[k div C], cols[k mod C], flatten(values)[k]), and there are min(R·C, cells) records |
| Sheets.LongFormatIndex | vantetider/scraper.py:638-643 | record k lies inside the sheet and is (rows[k div C], cols[k mod C], flatten(values)[k]) |
| Sheets.LongFormatIsDictList | vantetider/scraper.py:616-643 | with every row of C cells, `long_format` lists exactly the records of `as_dictlist`, in the same order |
| Sheets.AsDictList | vantetider/scraper.py:626-635 | the nested loops return the row-major records, or IndexError on a short row |
| Sheets.RaggedSheetAccepted | vantetider/scraper.py:604-610 | rows `[[1,2],[3]]` pass the constructor; `long_format` truncates, `as_dictlist` raises |
| Datatables.ParseValueRows | vantetider/scraper.py:548-551 | the loop collecting `values` parses every cell of every row, failing on the first bad cell |
| Datatables.ParseHorizontalScrollTable | vantetider/scraper.py:540-555 | the extractor equals its function: left-column labels, no ids, every scroll-head column |
| Datatables.ParseLabelledTable | vantetider/scraper.py:557-588 | the vertical and regular extractors equal their function |
| Datatables.AppendTabRecords | vantetider/scraper.py:513-518 | appends one tab record per cell |
| Datatables.ParseTabbed | vantetider/scraper.py:505-518 | the loop over tabs and panes equals the tabbed records |
| Datatables.AppendPlainRecords | vantetider/scraper.py:531-536 | appends one plain record per cell |
| Datatables.ParseValues | vantetider/scraper.py:493-538 | `_parse_values` equals the dispatch function |
| Datatables.RecordKeys | vantetider/scraper.py:514-518 | tab records have exactly the three keys without `value`; plain records have `value` |
| Datatables.TabbedRecordsSpec | vantetider/scraper.py:510-518 | with a scroll marker, the records are the panes' records in order, each labelled with its own tab |
| Datatables.ReadPane | vantetider/scraper.py:510-518 | one turn of the tab loop equals the tabbed records up to the next tab |
| Datatables.TabbedScrollRecords | vantetider/scraper.py:505-518 | with a scroll marker and every pane readable, the records are the concatenation of the panes' records, each labelled with its tab |
| Datatables.TabbedWithoutScroll | vantetider/scraper.py:511 | without a horizontal-scroll marker tabbed pages yield no records |
| Datatables.TabbedRecordsMeasures | vantetider/scraper.py:510-518 | every tabbed record's measure is some tab's label |
| Datatables.RecordsHaveMeasure | vantetider/scraper.py:493-538 | every record of `_parse_values` has a `measure` |
| Datatables.TabbedDispatch | vantetider/scraper.py:497-518 | AssertionError unless tab and pane counts agree and are non-zero; then the closed form above, no record with a value |
| Datatables.PlainDispatch | vantetider/scraper.py:520-536 | a scroll marker raises NotImplementedError; otherwise the vertical wrapper, else the last chart table (IndexError if none), one record per cell |
| Datatables.LabelledIds | vantetider/scraper.py:560-562 | ids are all `None` unless the region has a `td .clickable`; then every row has an onclick and its id is `parse_landsting` of it, and the table is built from those ids; errors propagate |
| Datatables.LabelledRows | vantetider/scraper.py:559 | one label per body row, the parsed first cell; a row without cells raises |
| Datatables.SheetLongFormatAt | vantetider/scraper.py:586-588 | record k of a built sheet's long format is row k div C, column k mod C, cell k |
| Datatables.LabelledTriplesAt | vantetider/scraper.py:574-588 | record k of a labelled table: row k div C, header k mod C after the first, value cell k after each row's first |
| Datatables.LabelledTripleIds | vantetider/scraper.py:560-588 | with a `td .clickable`, record k's row key carries `parse_landsting` of the onclick of row k div C |
| Datatables.LabelledTripleNoIds | vantetider/scraper.py:560-588 | without a `td .clickable`, no record's row key carries an id |
| Datatables.Unique | vantetider/scraper.py:645-650 | `list(set(l))`: the same elements, no duplicates |
| Datatables.Datatable.FromRecords | vantetider/scraper.py:452-455 | the table holds the records, each with a measure, and an empty measures cache; the class invariant holds |
| Datatables.Datatable.Parse | vantetider/scraper.py:452-455 | a table is built from `_parse_values`, whose errors propagate |
| Datatables.Datatable.Measures | vantetider/scraper.py:482-491 | on every call the unique measures of the records, computed once and then served from the cache, which keeps the class invariant |
| Dimensions.Dimension.constructor | vantetider/scraper.py:389-398 | a dimension starts with both caches empty |
| Dimensions.Dimension.ElementType | vantetider/scraper.py:392-398 | `get_elem_type` of the element, cached on success, not cached on failure |
| Dimensions.Dimension.Default | vantetider/scraper.py:401-425 | first read: reads `elem_type` (filling its cache on success), then the select/checkbox/radio default, cached even when `None`, then AssertionError if `None`; later reads return the cache and leave both caches alone |
| Dimensions.LastCheckedSpec | vantetider/scraper.py:373-376 | the last checked radio, `None` when none is checked |
| Dimensions.LastCheckedRadio | vantetider/scraper.py:371-376 | the loop overwriting `selected_cat` finds the last checked radio |
| Dimensions.SelectionStep | vantetider/scraper.py:352-385 | one dimension's selection equals its function |
| Dimensions.GetCurrentSelection | vantetider/scraper.py:344-387 | the loop over the dimensions equals the selection function |
| Dimensions.SelectionTurn | vantetider/scraper.py:348-385 | one turn of the dimension loop equals the selection function up to the next dimension |
| Dimensions.SelectionKeys | vantetider/scraper.py:347-385 | the selection has an entry for exactly the dimensions other than `measure` and `unit_id` |
| Dimensions.RadioSelectionIsLastChecked | vantetider/scraper.py:370-379 | a radio's selection is the last checked input; AssertionError if none |
| Dimensions.RadioDefaultIsFirstChecked | vantetider/scraper.py:418-419 | a radio group's default is the first checked input's value; IndexError if none |
| Dimensions.RadioDefaultAndSelectionDiffer | vantetider/scraper.py:370-379 | for a radio group whose inputs are the page's radios, with a first checked radio before a last checked one: the default is the first one's value, the selection the last one's, and the two values differ |
| Dimensions.SelectDefaultIsSelection | vantetider/scraper.py:359-369 | a select's default and current selection read the same option, and fail together |
| Dimensions.CheckboxSelection | vantetider/scraper.py:381-383 | a checkbox is selected as a pair of equal flags: whether it is checked |
| Dimensions.MissingFieldRaises | vantetider/scraper.py:352-355 | a form field missing from the page raises before the element type is read |
| Regions.FindRegionSpec | vantetider/scraper.py:262-270 | the first region whose label (or id) is the key; `None` exactly when there is none |
| Regions.ByLabelName | vantetider/scraper.py:264 | a region found by label has that label |
| Regions.LookUpSpec | vantetider/scraper.py:262-272 | labels are tried before ids; KeyError exactly when neither matches |
| Regions.TransliterateClean | vantetider/scraper.py:274-279 | no space, ö, Ö, ä or å is left |
| Regions.TransliteratePlain | vantetider/scraper.py:274-279 | a label without those characters is unchanged |
| Regions.ExceptionsNameNoRegion | vantetider/scraper.py:284-288 | no key of the exception table contains `region` |
| Regions.SlugSpec | vantetider/scraper.py:274-292 | a slug naming a region is kept, any other gets `s`, and then the exception table applies; the slug is transliterated |
| Regions.SlugExample | vantetider/scraper.py:261-262 | `"Norrbotten"` gives `"Norrbottens"` |
| Regions.UrlOfSweden | vantetider/scraper.py:216-222 | the national page is `BASE_URL + "Sveriges/" + id` without any lookup |
| Regions.UrlSpec | vantetider/scraper.py:216-223 | any other region is looked up; the URL is `BASE_URL + slug + "/" + id`, failing when the lookup does |
| ResultPage.FillMissing | vantetider/scraper.py:337-339 | the loop filling missing dimensions equals its function |
| ResultPage.ObserveRecord | vantetider/scraper.py:317-340 | one turn of the row loop equals its function |
| ResultPage.ParseResultRows | vantetider/scraper.py:313-342 | the loop over the rows equals the observations function |
| ResultPage.ObserveTurn | vantetider/scraper.py:316-340 | one turn of the row loop equals the observations function up to the next row |
| ResultPage.FillDimsSpec | vantetider/scraper.py:337-339 | after filling, the row has every dimension; existing fields are kept, the others get the selection's label; KeyError unless all are selected |
| ResultPage.PlaceRowSpec | vantetider/scraper.py:317-330 | a known region sets region, no unit, and becomes current; any other row needs an id and becomes a unit of the current region |
| ResultPage.ObservationsLength | vantetider/scraper.py:316-340 | one observation per record |
| ResultPage.ObservationAt | vantetider/scraper.py:315-340 | observation k is record k observed under the region the earlier records left current |
| ResultPage.FillDown | vantetider/scraper.py:315-330 | the current region is the label of the last record naming a region, `None` before the first |
| ResultPage.ObserveCurrent | vantetider/scraper.py:319-330 | a record leaves its own region current if it names one, else the inherited one |
| ResultPage.ObservePlacement | vantetider/scraper.py:317-335 | an observation's value is the record's, with region, unit and unit_id set as above |
| ResultPage.ObserveDims | vantetider/scraper.py:334-339 | an observation keeps the record's other fields and fills each missing dimension with its selection's label |
| ResultPage.ValuelessRecordFails | vantetider/scraper.py:332 | a record without `value` raises KeyError once placed |
| ResultPage.TabbedPageFails | vantetider/scraper.py:311-332 | a tabbed page with records always fails |
| ResultPage.ObservationsKeepErrorAt | vantetider/scraper.py:316-340 | a failing first record fails the page |
| QueryExpansion.FirstRejected | vantetider/scraper.py:128-131 | the error for the first listed dimension the query names; none exactly when it names none |
| QueryExpansion.Rejection | vantetider/scraper.py:126-131 | `unit` is refused first, then `services`; any other query passes |
| QueryExpansion.CheckQuery | vantetider/scraper.py:128-131 | the loop over the refused dimensions equals the rejection |
| QueryExpansion.QueryDimsSpec | vantetider/scraper.py:133 | the dimensions other than `measure` and `unit_id` |
| QueryExpansion.BuildValueLists | vantetider/scraper.py:139-154 | the loop building `query_values` equals its function |
| QueryExpansion.ValueListsSpec | vantetider/scraper.py:139-154 | one list per form key; list i is what the query asks of dimension i or its default; fails exactly when some default does |
| QueryExpansion.ProductLength | vantetider/scraper.py:156 | the number of combinations is the product of the list lengths |
| QueryExpansion.ProductOrder | vantetider/scraper.py:156 | combination a·C + b is item a of the first list before combination b of the others: the first list varies slowest |
| QueryExpansion.ProductMember | vantetider/scraper.py:156 | a sequence is a combination exactly when it takes one item from each list |
| QueryExpansion.ProductOfNone | vantetider/scraper.py:156 | `product()` gives one empty combination |
| QueryExpansion.DictZipSpec | vantetider/scraper.py:163 | the payload has exactly the form keys; a key's value is that of its last position |
| QueryExpansion.RequestOfSpec | vantetider/scraper.py:163-168 | KeyError without `select_region`; otherwise the URL of that region and the region passed on |
| QueryExpansion.RequestsOk | vantetider/scraper.py:161-168 | all requests are formed exactly when every combination's is |
| QueryExpansion.RequestsSpec | vantetider/scraper.py:161-168 | request i is combination i's |
| QueryExpansion.BuildRequests | vantetider/scraper.py:161-168 | the loop over the combinations equals its function |
| QueryExpansion.PlanQueries | vantetider/scraper.py:120-168 | `_fetch_data` up to the fetches equals the plan function |
| QueryExpansion.PlanRejects | vantetider/scraper.py:128-131 | a query naming `unit` or `services` fails with NotImplementedError before anything else |
| QueryExpansion.PlanSpec | vantetider/scraper.py:120-168 | one request per combination in product order, each posting the form keys zipped with it; `only_region` iff the query names only `region` |
| QueryExpansion.FetchPlanRequests | vantetider/scraper.py:120-168 | a plan that succeeds passed the `unit`/`services` check and is the requests for the product of the value lists, posting the form keys |
| QueryExpansion.PlanPayloads | vantetider/scraper.py:133-163 | with distinct form keys, every payload holds for each form dimension one of the asked values, or its default |
| QueryExpansion.PlanCovers | vantetider/scraper.py:156-163 | every choice of one value per list is requested |
| QueryExpansion.EmptyListNoRequests | vantetider/scraper.py:156-161 | a dimension asked for an empty list leaves nothing to request |
| Catalog.DatasetIdHasNoSlash | vantetider/scraper.py:35 | a dataset id has no `/` |
| Catalog.DatasetIdPieces | vantetider/scraper.py:35 | the pieces the id is taken from rebuild the link |
| Catalog.SelectDimIdOf | vantetider/scraper.py:58 | `select_` + t gives t when t has neither prefix in it |
| Catalog.SelectRegion | vantetider/scraper.py:58 | `select_region` gives `region` |
| Catalog.CheckboxDimIdOf | vantetider/scraper.py:69 | `checkbox_` + t gives t when t has no `checkbox_` |
| Catalog.ListedSpec | vantetider/scraper.py:39-42 | the listed datasets are exactly the (id, label) pairs whose id is not in the not-implemented list, in link order: one entry per implemented link position, positions increasing |
| Catalog.ListedMembers | vantetider/scraper.py:39-42 | a pair is listed exactly when some link position carries it with an implemented id, and there are no more entries than links |

## Left out

- HTTP and caching are not modelled: `requests_cache`, `_get_html`, `_post_html`, `_get_json`, and the error-500 branch of `_parse_result_page` (scraper.py:300-309) are network I/O. A request is modelled as the data `_parse_result_page` would be called with.
- Logging (`PrintLogger`, the `log.info` calls) only prints.
- BeautifulSoup parsing and CSS selection are not modelled; the abstract document stands in for the selections the code makes. Text nodes among an element's children are not represented.
- The statscraper base classes are foreign; `Result`, `DimensionValue` and the dimension lists are modelled only as the values passed to them. `regions.get_by_label` and `regions[id]` are a first-match search over a list of region values.
- The DOM traversal of `_fetch_itemslist` and `_fetch_dimensions` (scraper.py:25-95) is left out. Only the id derivations at scraper.py:35, 58 and 69 and the not-implemented filter are modelled.
- `_fetch_allowed_values` (scraper.py:97-117) only iterates DOM elements.
- `float()` yields the exact decimal value. Rounding to binary64, overflow to infinity, `-0.0` and non-ASCII digits are not modelled.
- `guess_measure_unit` is dead code: it uses names that are never imported.
- `is_int` and `is_string` are unused wrappers over Python builtins.
- Datatables.Unique: the order `list(set(l))` gives is unspecified; only same-elements and no-duplicates are stated.
- QueryExpansion.FetchPlan: `_fetch_data` is a generator that fetches and yields the rows of one request before forming the next. The model forms all requests first and reports the first error, so rows yielded before a later request fails are not modelled.
- QueryExpansion.ValuesOf: it uses a dimension's first read of `default_value`. A dimension whose default was already read once, and stored as `None`, would yield `None` here instead of AssertionError.
- The packaging files, the constant tables in `allowed_values.py` and the live-network tests are outside the core.
