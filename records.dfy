/** The dictionaries the table code builds and the result-page code edits:
    each record maps a key to a field. */
module DictRecords {
  import opened Results
  import opened CellParsers

  /** A row of a sheet: `(id, label)`, the id present only when the row
      carries a `landsting` click handler. */
  datatype RowKey = RowKey(id: Option<string>, name: string)

  /** A dictionary value: a string, `None`, a boolean (a checkbox state), a
      row key, or a parsed cell. */
  datatype Field = Text(text: string) | Null | Flag(flag: bool) | Key(key: RowKey) | Value(value: CellValue)

  type Row = map<string, Field>
}
