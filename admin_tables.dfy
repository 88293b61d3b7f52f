/**
 * What the three admin detail pages have in common: records fetched from a server as JSON,
 * the selection list of record ids, bulk delete of the selected records, the select-all
 * header checkbox, and the export of one row per record under fixed column headers.
 */
module AdminTables {
  import opened Outcomes
  import opened Text
  import Lists

  /** A JSON value a record field can hold. */
  datatype Value = Str(s: string) | Num(n: int) | Bool(b: bool) | Strs(items: seq<string>) | Null

  /** A record as the server returns it: its id and its other fields by name. */
  datatype Record = Record(id: int, fields: map<string, Value>)

  /** `record[name]`; a field the record does not have is `undefined`, modelled as `Null`. */
  function Field(r: Record, name: string): Value {
    if name in r.fields then r.fields[name] else Null
  }

  /** JavaScript truthiness of a field value (an array, even an empty one, is truthy). */
  predicate Truthy(v: Value) {
    match v
    case Str(s) => s != ""
    case Num(n) => n != 0
    case Bool(b) => b
    case Strs(_) => true
    case Null => false
  }

  /** `value.toString()`, defined for every value but `null`/`undefined`, on which it throws. */
  function ValueText(v: Value): (r: string)
    requires !v.Null?
    ensures v.Str? ==> r == v.s
    ensures v.Strs? && |v.items| == 1 ==> r == v.items[0]
  {
    match v
    case Str(s) => s
    case Num(n) => IntString(n)
    case Bool(b) => if b then "true" else "false"
    case Strs(items) => Join(items, ",")
  }

  /** The ids of the records, in list order: `items.map(item => item.id)`. */
  function Ids(records: seq<Record>): (r: seq<int>)
    ensures |r| == |records|
    ensures forall i :: 0 <= i < |records| ==> r[i] == records[i].id
  {
    if records == [] then [] else [records[0].id] + Ids(records[1..])
  }

  // ---------------------------------------------------------------------------
  // Delete
  // ---------------------------------------------------------------------------

  /**
   * `prev.filter(item => !selected.includes(item.id))`: exactly the records whose id is not
   * selected survive, in their original order.
   */
  function DeleteSelected(records: seq<Record>, selected: seq<int>): (r: seq<Record>)
    ensures forall x :: x in r <==> x in records && x.id !in selected
    ensures Lists.IsSubsequence(r, records)
    ensures forall x :: multiset(r)[x] == if x.id !in selected then multiset(records)[x] else 0
  {
    var keep := (x: Record) => x.id !in selected;
    forall x ensures x in Lists.Filter(records, keep) <==> x in records && x.id !in selected {
      Lists.FilterMembership(records, keep, x);
    }
    forall x ensures multiset(Lists.Filter(records, keep))[x] == if x.id !in selected then multiset(records)[x] else 0 {
      Lists.FilterKeepsCopies(records, keep, x);
    }
    Lists.FilterIsSubsequence(records, keep);
    Lists.Filter(records, keep)
  }

  /** With nothing selected, delete-selected keeps every record. */
  lemma DeleteNothingSelected(records: seq<Record>)
    ensures DeleteSelected(records, []) == records
  {
    Lists.FilterAll(records, (x: Record) => x.id !in []);
  }

  /** `prev.filter(item => item.id !== id)`: every record with that id goes, the rest stay in order. */
  function DeleteById(records: seq<Record>, id: int): (r: seq<Record>)
    ensures forall x :: x in r <==> x in records && x.id != id
    ensures Lists.IsSubsequence(r, records)
    ensures forall x :: multiset(r)[x] == if x.id != id then multiset(records)[x] else 0
  {
    var keep := (x: Record) => x.id != id;
    forall x ensures x in Lists.Filter(records, keep) <==> x in records && x.id != id {
      Lists.FilterMembership(records, keep, x);
    }
    forall x ensures multiset(Lists.Filter(records, keep))[x] == if x.id != id then multiset(records)[x] else 0 {
      Lists.FilterKeepsCopies(records, keep, x);
    }
    Lists.FilterIsSubsequence(records, keep);
    Lists.Filter(records, keep)
  }

  // ---------------------------------------------------------------------------
  // Select all
  // ---------------------------------------------------------------------------

  /** The header checkbox is drawn checked: `selectedItems.length === items.length`. */
  predicate HeaderChecked(selected: seq<int>, records: seq<Record>) {
    |selected| == |records|
  }

  /**
   * The header checkbox's handler: when it is drawn checked the selection is cleared,
   * otherwise every record's id is selected, in list order.
   */
  function SelectAll(selected: seq<int>, records: seq<Record>): (r: seq<int>)
    ensures HeaderChecked(selected, records) ==> r == []
    ensures !HeaderChecked(selected, records) ==> r == Ids(records)
  {
    if |selected| == |records| then [] else Ids(records)
  }

  /** After selecting all, every record is selected and the header is drawn checked. */
  lemma SelectAllSelectsEveryRecord(selected: seq<int>, records: seq<Record>, x: Record)
    requires !HeaderChecked(selected, records) && x in records
    ensures x.id in SelectAll(selected, records)
    ensures HeaderChecked(SelectAll(selected, records), records)
  {
    var i :| 0 <= i < |records| && records[i] == x;
    assert Ids(records)[i] == x.id;
  }

  /** Clicking the header twice from a partial selection ends with nothing selected. */
  lemma SelectAllTwiceClears(selected: seq<int>, records: seq<Record>)
    requires !HeaderChecked(selected, records)
    ensures SelectAll(SelectAll(selected, records), records) == []
  {
  }

  // ---------------------------------------------------------------------------
  // Export
  // ---------------------------------------------------------------------------

  /**
   * One column of an export: a header and the record field it shows, either copied as it is
   * or, for a list field, joined with `", "`.
   */
  datatype Column = Copy(header: string, field: string) | JoinList(header: string, field: string)

  /** An exported row: header/value pairs in column order (the key order of the JS object). */
  type Row = seq<(string, Value)>

  /** Every list column of the export holds an array in the record (`join` throws otherwise). */
  predicate Joinable(r: Record, columns: seq<Column>) {
    forall j :: 0 <= j < |columns| && columns[j].JoinList? ==> Field(r, columns[j].field).Strs?
  }

  /** What a record shows under one column. */
  function CellValue(r: Record, c: Column): (v: Value)
    requires c.JoinList? ==> Field(r, c.field).Strs?
    ensures c.Copy? ==> v == Field(r, c.field)
    ensures c.JoinList? ==> v == Str(Join(Field(r, c.field).items, ", "))
  {
    match c
    case Copy(_, field) => Field(r, field)
    case JoinList(_, field) => Str(Join(Field(r, field).items, ", "))
  }

  /** The headers of the columns, in order. */
  function Headers(columns: seq<Column>): (r: seq<string>)
    ensures |r| == |columns|
    ensures forall j :: 0 <= j < |columns| ==> r[j] == columns[j].header
  {
    if columns == [] then [] else [columns[0].header] + Headers(columns[1..])
  }

  /** No two columns share a header. */
  predicate DistinctHeaders(columns: seq<Column>) {
    forall a, b :: 0 <= a < b < |columns| ==> columns[a].header != columns[b].header
  }

  /** The headers of a row, in order. */
  function RowHeaders(row: Row): (r: seq<string>)
    ensures |r| == |row|
    ensures forall j :: 0 <= j < |row| ==> r[j] == row[j].0
  {
    if row == [] then [] else [row[0].0] + RowHeaders(row[1..])
  }

  /** The object one record becomes in the export. */
  function ExportRow(r: Record, columns: seq<Column>): (row: Row)
    requires Joinable(r, columns)
    ensures RowHeaders(row) == Headers(columns)
    ensures forall j :: 0 <= j < |columns| ==> row[j].1 == CellValue(r, columns[j])
  {
    if columns == [] then []
    else [(columns[0].header, CellValue(r, columns[0]))] + ExportRow(r, columns[1..])
  }

  /** `records.map(...)`: one row per record, in list order. */
  function ExportRows(records: seq<Record>, columns: seq<Column>): (rows: seq<Row>)
    requires forall i :: 0 <= i < |records| ==> Joinable(records[i], columns)
    ensures |rows| == |records|
    ensures forall i :: 0 <= i < |records| ==> rows[i] == ExportRow(records[i], columns)
  {
    if records == [] then [] else [ExportRow(records[0], columns)] + ExportRows(records[1..], columns)
  }

  /** Reading a row by header, as a spreadsheet reader would: the first pair with that header. */
  function Lookup(row: Row, header: string): (r: Option<Value>)
    ensures r.None? <==> header !in RowHeaders(row)
  {
    if row == [] then None else if row[0].0 == header then Some(row[0].1) else Lookup(row[1..], header)
  }

  lemma {:induction false} LookupAt(row: Row, j: nat)
    requires j < |row|
    requires forall i :: 0 <= i < j ==> row[i].0 != row[j].0
    ensures Lookup(row, row[j].0) == Some(row[j].1)
  {
    if j > 0 {
      LookupAt(row[1..], j - 1);
    }
  }

  /**
   * When no earlier column has the same header (as when all headers are distinct), the cell
   * under a column's header in a record's exported row holds exactly that record's value for
   * the column: the renaming loses and mixes up nothing.
   */
  lemma ExportedCell(r: Record, columns: seq<Column>, j: nat)
    requires Joinable(r, columns)
    requires j < |columns| && forall i :: 0 <= i < j ==> columns[i].header != columns[j].header
    ensures Lookup(ExportRow(r, columns), columns[j].header) == Some(CellValue(r, columns[j]))
  {
    var row := ExportRow(r, columns);
    assert RowHeaders(row) == Headers(columns);
    forall i | 0 <= i < j ensures row[i].0 != row[j].0 {
      assert Headers(columns)[i] == columns[i].header;
    }
    LookupAt(row, j);
  }

  /**
   * The cell under a list column's header, when no earlier column has that header, is the
   * joined text, and it names every item of the record's list.
   */
  lemma JoinedCellNamesEveryItem(r: Record, columns: seq<Column>, j: nat, x: string)
    requires Joinable(r, columns)
    requires j < |columns| && forall i :: 0 <= i < j ==> columns[i].header != columns[j].header
    requires columns[j].JoinList? && x in Field(r, columns[j].field).items
    ensures Lookup(ExportRow(r, columns), columns[j].header).Some?
    ensures Lookup(ExportRow(r, columns), columns[j].header).value.Str?
    ensures Contains(Lookup(ExportRow(r, columns), columns[j].header).value.s, x)
  {
    ExportedCell(r, columns, j);
    JoinedItemsAppear(Field(r, columns[j].field).items, ", ", x);
  }

  /** The two exporters a page can hand its rows to. */
  datatype Exporter = Excel | Csv

  /** What a page hands to `exportToExcel`/`exportToCSV`: the exporter, the file name and the rows. */
  datatype Export = Export(exporter: Exporter, fileName: string, rows: seq<Row>)

  /** `format === 'excel' ? exportToExcel : exportToCSV`: any other format means CSV. */
  function ExcelOrCsv(format: string): (e: Exporter)
    ensures e == Excel <==> format == "excel"
  {
    if format == "excel" then Excel else Csv
  }

  // ---------------------------------------------------------------------------
  // Joined lists
  // ---------------------------------------------------------------------------

  lemma OccursInConcat(a: string, b: string, x: string, i: int)
    requires OccursAt(a, x, i) || OccursAt(b, x, i - |a|)
    ensures OccursAt(a + b, x, i)
  {
    if OccursAt(a, x, i) {
      assert (a + b)[i..i + |x|] == a[i..i + |x|];
    } else {
      assert (a + b)[i..i + |x|] == b[i - |a|..i - |a| + |x|];
    }
  }

  /** Every item of a joined list can be found in the joined text. */
  lemma {:induction false} JoinedItemsAppear(xs: seq<string>, sep: string, x: string)
    requires x in xs
    ensures Contains(Join(xs, sep), x)
  {
    if |xs| == 1 {
      assert OccursAt(xs[0], x, 0);
    } else if x == xs[0] {
      OccursInConcat(xs[0], sep + Join(xs[1..], sep), x, 0);
      assert xs[0] + sep + Join(xs[1..], sep) == xs[0] + (sep + Join(xs[1..], sep));
    } else {
      JoinedItemsAppear(xs[1..], sep, x);
      var i :| 0 <= i <= |Join(xs[1..], sep)| && OccursAt(Join(xs[1..], sep), x, i);
      var head := xs[0] + sep;
      OccursInConcat(head, Join(xs[1..], sep), x, |head| + i);
    }
  }
}
