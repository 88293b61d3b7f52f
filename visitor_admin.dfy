/**
 * The admin page listing visit bookings: a free-text search over every field of a booking,
 * row expansion, per-row and bulk delete, and an export whose list columns (campuses,
 * materials) are joined into one cell.
 */
module VisitorAdmin {
  import opened Outcomes
  import opened Text
  import opened AdminTables
  import Lists

  /** The columns of `prepareDataForExport`, in order. */
  const VisitorColumns: seq<Column> := [
    Copy("Institution Name", "institutionName"), Copy("Branch", "studentBranch"),
    Copy("Semester", "studentSem"), Copy("Number of Students", "numStudents"),
    Copy("Number of Faculty", "numFaculty"), Copy("Contact Person", "name"),
    Copy("Position", "position"), Copy("Email", "email"), Copy("Mobile", "mobile"),
    JoinList("Campus", "campus"), Copy("IPR Time", "ipr_time"), Copy("FCIPT Time", "fcipt_time"),
    Copy("Visit Date", "visit_date"), Copy("Visit Time", "visit_time"),
    JoinList("Materials", "materials")
  ]

  /** The export repeats no header. */
  lemma VisitorHeadersDistinct()
    ensures DistinctHeaders(VisitorColumns)
  {
    VisitorHeadersBelow(6);
    VisitorHeadersBelow(11);
    VisitorHeadersBelow(15);
  }

  lemma VisitorHeadersBelow(n: nat)
    requires n == 6 || n == 11 || n == 15
    ensures forall a, b :: 0 <= a < b < |VisitorColumns| && n - 5 <= b < n ==> VisitorColumns[a].header != VisitorColumns[b].header
  {
  }

  /** Every booking can be exported: its campus and materials fields are arrays. */
  predicate Exportable(records: seq<Record>) {
    forall i :: 0 <= i < |records| ==> Joinable(records[i], VisitorColumns)
  }

  /**
   * `handleExport`: the rows go to the Excel exporter for "excel", to the CSV exporter for
   * "csv", and nowhere for any other format.
   */
  function VisitorExport(records: seq<Record>, format: string): (e: Option<Export>)
    requires Exportable(records)
    ensures e.Some? <==> format == "excel" || format == "csv"
    ensures e.Some? ==> (e.value.exporter == Excel <==> format == "excel")
    ensures e.Some? ==> e.value.fileName == "visitors_data" && |e.value.rows| == |records|
    ensures e.Some? ==> forall i :: 0 <= i < |records| ==> e.value.rows[i] == ExportRow(records[i], VisitorColumns)
  {
    if format == "excel" then Some(Export(Excel, "visitors_data", ExportRows(records, VisitorColumns)))
    else if format == "csv" then Some(Export(Csv, "visitors_data", ExportRows(records, VisitorColumns)))
    else None
  }

  /** The tenth column joins the campus list under "Campus", a header no earlier column uses. */
  lemma CampusColumn()
    ensures |VisitorColumns| == 15 && VisitorColumns[9] == JoinList("Campus", "campus")
    ensures forall i :: 0 <= i < 9 ==> VisitorColumns[i].header != VisitorColumns[9].header
  {
  }

  /** The "Campus" cell of an exported booking names every campus the booking lists. */
  lemma CampusCellNamesEveryCampus(r: Record, campus: string)
    requires Joinable(r, VisitorColumns) && Field(r, "campus").Strs? && campus in Field(r, "campus").items
    ensures Lookup(ExportRow(r, VisitorColumns), "Campus").Some?
    ensures Lookup(ExportRow(r, VisitorColumns), "Campus").value.Str?
    ensures Contains(Lookup(ExportRow(r, VisitorColumns), "Campus").value.s, campus)
  {
    CampusColumn();
    JoinedCellNamesEveryItem(r, VisitorColumns, 9, campus);
  }

  // ---------------------------------------------------------------------------
  // Search
  // ---------------------------------------------------------------------------

  /** No field of the booking is `null` (on which `toString()` throws). */
  predicate NoNulls(r: Record) {
    forall k :: k in r.fields ==> !r.fields[k].Null?
  }

  /** Field `k` of the booking, as text, contains the search term, ignoring case. */
  predicate FieldMatches(r: Record, k: string, term: string) {
    k in r.fields && !r.fields[k].Null? && ContainsIgnoringCase(ValueText(r.fields[k]), term)
  }

  /** Some value of `Object.values(item)` — the id or another field — contains the term, ignoring case. */
  predicate Matches(r: Record, term: string) {
    ContainsIgnoringCase(IntString(r.id), term) || exists k | k in r.fields :: FieldMatches(r, k, term)
  }

  /**
   * `filteredData`: the bookings that match the search term, in their original order. Only
   * those are drawn in the table.
   */
  function Filtered(records: seq<Record>, term: string): (r: seq<Record>)
    requires forall i :: 0 <= i < |records| ==> NoNulls(records[i])
    ensures forall x :: x in r <==> x in records && Matches(x, term)
    ensures Lists.IsSubsequence(r, records)
    ensures forall x :: multiset(r)[x] == if Matches(x, term) then multiset(records)[x] else 0
  {
    var keep := (x: Record) => Matches(x, term);
    forall x ensures x in Lists.Filter(records, keep) <==> x in records && Matches(x, term) {
      Lists.FilterMembership(records, keep, x);
    }
    forall x ensures multiset(Lists.Filter(records, keep))[x] == if Matches(x, term) then multiset(records)[x] else 0 {
      Lists.FilterKeepsCopies(records, keep, x);
    }
    Lists.FilterIsSubsequence(records, keep);
    Lists.Filter(records, keep)
  }

  /** An empty search box shows every booking. */
  lemma EmptyTermShowsAll(records: seq<Record>)
    requires forall i :: 0 <= i < |records| ==> NoNulls(records[i])
    ensures Filtered(records, "") == records
  {
    forall i | 0 <= i < |records| ensures Matches(records[i], "") {
      ContainsEmpty(ToLower(IntString(records[i].id)));
    }
    Lists.FilterAll(records, (x: Record) => Matches(x, ""));
  }

  /** The search ignores case: a term and its lower-cased form show the same bookings. */
  lemma SearchIgnoresCase(records: seq<Record>, term: string)
    requires forall i :: 0 <= i < |records| ==> NoNulls(records[i])
    ensures Filtered(records, ToLower(term)) == Filtered(records, term)
  {
    ToLowerIdempotent(term);
    Lists.FilterSameTest(records, (x: Record) => Matches(x, ToLower(term)), (x: Record) => Matches(x, term));
  }

  // ---------------------------------------------------------------------------
  // The page
  // ---------------------------------------------------------------------------

  /** `toggleExpandRow(id)`: the expanded row collapses when clicked again; any other row becomes the expanded one. */
  function ToggleExpand(expanded: Option<int>, id: int): (r: Option<int>)
    ensures r.None? <==> expanded == Some(id)
    ensures r.Some? ==> r.value == id
  {
    if expanded == Some(id) then None else Some(id)
  }

  /** Clicking a row twice restores the expansion when nothing, or that very row, was expanded before. */
  lemma ExpandTwice(id: int)
    ensures ToggleExpand(ToggleExpand(None, id), id) == None
    ensures ToggleExpand(ToggleExpand(Some(id), id), id) == Some(id)
  {
  }

  /** The page state: the fetched bookings, the selected ids and the expanded row. */
  class VisitorsPage {
    var visitorData: seq<Record>
    var selectedItems: seq<int>
    var expandedRow: Option<int>

    /** The page once the fetch has returned: nothing selected, no row expanded. */
    constructor (fetched: seq<Record>)
      ensures visitorData == fetched && selectedItems == [] && expandedRow == None
    {
      visitorData := fetched;
      selectedItems := [];
      expandedRow := None;
    }

    /** `handleItemSelection(id)`. */
    method HandleItemSelection(id: int)
      modifies this`selectedItems
      ensures selectedItems == Lists.Toggle(old(selectedItems), id)
    {
      selectedItems := Lists.Toggle(selectedItems, id);
    }

    /** `handleDeleteSelected`: drops the selected bookings and clears the selection. */
    method HandleDeleteSelected()
      modifies this`visitorData, this`selectedItems
      ensures visitorData == DeleteSelected(old(visitorData), old(selectedItems))
      ensures selectedItems == []
    {
      visitorData := DeleteSelected(visitorData, selectedItems);
      selectedItems := [];
    }

    /** `handleDelete(id)`: drops every booking with that id; the selection is left as it is. */
    method HandleDelete(id: int)
      modifies this`visitorData
      ensures visitorData == DeleteById(old(visitorData), id)
    {
      visitorData := DeleteById(visitorData, id);
    }

    /** `toggleExpandRow(id)`. */
    method ToggleExpandRow(id: int)
      modifies this`expandedRow
      ensures expandedRow == ToggleExpand(old(expandedRow), id)
    {
      expandedRow := ToggleExpand(expandedRow, id);
    }
  }
}
