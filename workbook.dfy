/** The in-memory value of a workbook and of the keyed corpus of workbooks,
    and the errors the pipeline can raise. */
module Workbooks {
  import opened Wrappers

  /** A cell's value: a string, or `None` for an empty cell. */
  type Cell = Option<string>

  type Row = seq<Cell>

  /** Every row is as wide as the first one. */
  predicate IsRectangular(g: seq<Row>) {
    forall r :: 0 <= r < |g| ==> |g[r]| == |g[0]|
  }

  /** A sheet's cells, row by row; row 0 is the header row (spreadsheet row 1).
      OpenPyXL presents every sheet as a rectangle of `max_row` by
      `max_column` cells, absent cells reading as `None`. */
  type Grid = g: seq<Row> | IsRectangular(g) witness []

  /** The number of columns, `len(sheet['1'])`. */
  function Width(g: Grid): nat {
    if |g| == 0 then 0 else |g[0]|
  }

  /** The header row. */
  function Header(g: Grid): (h: Row)
    ensures |h| == Width(g)
  {
    if |g| == 0 then [] else g[0]
  }

  datatype Sheet = Sheet(name: string, grid: Grid)

  /** A workbook: its sheets in tab order. */
  datatype Workbook = Workbook(sheets: seq<Sheet>)

  /** One member of the corpus: the workbook's file name and the workbook. */
  datatype Entry = Entry(key: string, book: Workbook)

  function SheetNames(wb: Workbook): (names: seq<string>)
    ensures |names| == |wb.sheets|
    ensures forall i :: 0 <= i < |names| ==> names[i] == wb.sheets[i].name
  {
    seq(|wb.sheets|, i requires 0 <= i < |wb.sheets| => wb.sheets[i].name)
  }

  /** The set of a workbook's sheet names, `set(book.sheetnames)`. */
  function NameSet(wb: Workbook): set<string> {
    set i | 0 <= i < |wb.sheets| :: wb.sheets[i].name
  }

  /** The set of the corpus's keys, `set(workbook_dict.keys())`. */
  function Keys(c: seq<Entry>): set<string> {
    set i | 0 <= i < |c| :: c[i].key
  }

  /** OpenPyXL keeps sheet titles unique within a workbook. */
  predicate DistinctNames(wb: Workbook) {
    forall i, j :: 0 <= i < j < |wb.sheets| ==> wb.sheets[i].name != wb.sheets[j].name
  }

  /** A dict has each key once. */
  predicate DistinctKeys(c: seq<Entry>) {
    forall i, j :: 0 <= i < j < |c| ==> c[i].key != c[j].key
  }

  predicate ValidCorpus(c: seq<Entry>) {
    DistinctKeys(c) && forall i :: 0 <= i < |c| ==> DistinctNames(c[i].book)
  }

  /** `get_sheet_by_name`: the first sheet with that title, or `None` where
      OpenPyXL raises `KeyError`. */
  function Lookup(wb: Workbook, name: string): (r: Option<Grid>)
    ensures r.Some? <==> name in NameSet(wb)
    ensures r.Some? ==> exists i :: (0 <= i < |wb.sheets| && wb.sheets[i] == Sheet(name, r.value)
      && forall j :: 0 <= j < i ==> wb.sheets[j].name != name)
    decreases |wb.sheets|
  {
    if wb.sheets == [] then None
    else if wb.sheets[0].name == name then Some(wb.sheets[0].grid)
    else
      var r := Lookup(Workbook(wb.sheets[1..]), name);
      assert NameSet(wb) == {wb.sheets[0].name} + NameSet(Workbook(wb.sheets[1..]));
      assert r.Some? ==> exists i :: (0 <= i < |wb.sheets| && wb.sheets[i] == Sheet(name, r.value)
        && forall j :: 0 <= j < i ==> wb.sheets[j].name != name) by {
        if r.Some? {
          var i :| 0 <= i < |wb.sheets[1..]| && wb.sheets[1..][i] == Sheet(name, r.value)
            && forall j :: 0 <= j < i ==> wb.sheets[1..][j].name != name;
          assert wb.sheets[i + 1] == Sheet(name, r.value);
          assert forall j :: 0 <= j < i + 1 ==> wb.sheets[j].name != name by {
            forall j | 0 < j < i + 1 ensures wb.sheets[j].name != name {
              assert wb.sheets[j] == wb.sheets[1..][j - 1];
            }
          }
        }
      }
      r
  }

  /** The exceptions the modelled code raises. */
  datatype Error =
    | EmptyHeaderValue(sheet: string)          // `cell.value[0]` on an empty string
    | MappingKeysMismatch                      // the `assert` on the file-name mapping
    | EmptyCorpus                              // `temp_sheetnames[0]` of an empty list
    | MissingSheet(book: string, sheet: string)    // `get_sheet_by_name` of an absent sheet
    | MissingIdentifierColumn(sheet: string)   // `pandas_sheet['iati-identifier']` absent
}
