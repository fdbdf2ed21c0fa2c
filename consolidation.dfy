/** Consolidation (`get_consolidated_workbook`): one table per template sheet,
    whose columns are the template's, built by matching every workbook's
    columns to the template by header name, stacking the data rows of all the
    workbooks in corpus order, and keeping the rows that carry an identifier. */
module Consolidation {
  import opened Wrappers
  import opened Seqs
  import opened Workbooks
  import opened Template

  /** The primary identifier column that every kept row must fill. */
  const IdentifierColumn: string := "iati-identifier"

  /** A data frame: its column names and its rows, each row one cell per column. */
  datatype Table = Table(columns: seq<string>, rows: seq<Row>)

  datatype NamedTable = NamedTable(name: string, table: Table)

  /** Python dict keys are unique. */
  predicate DistinctTemplateNames(template: Template) {
    forall i, j :: 0 <= i < j < |template| ==> template[i].name != template[j].name
  }

  /** The last column whose header is `name`: assigning each matching column
      in turn to the data frame leaves the last one in place. */
  function LastMatch(header: Row, name: string): (r: Option<nat>)
    ensures r.Some? ==> r.value < |header| && header[r.value] == Some(name)
    ensures r.Some? ==> forall c :: r.value < c < |header| ==> header[c] != Some(name)
    ensures r.None? ==> forall c :: 0 <= c < |header| ==> header[c] != Some(name)
  {
    if header == [] then None
    else if header[|header| - 1] == Some(name) then Some(|header| - 1)
    else LastMatch(header[..|header| - 1], name)
  }

  /** Some header cell names a template column. */
  predicate AnyMatch(header: Row, columns: seq<string>) {
    exists c :: 0 <= c < |header| && header[c].Some? && header[c].value in columns
  }

  /** The number of rows at 0-based index `dataStartingRow` or later. */
  function DataHeight(g: Grid, dataStartingRow: nat): nat {
    if |g| > dataStartingRow then |g| - dataStartingRow else 0
  }

  /** `[cell.value for cell in column[data_starting_row:]]` for column `c`. */
  function ColumnData(g: Grid, c: nat, dataStartingRow: nat): (r: seq<Cell>)
    requires c < Width(g)
    ensures |r| == DataHeight(g, dataStartingRow)
  {
    seq(DataHeight(g, dataStartingRow), i requires 0 <= i < DataHeight(g, dataStartingRow) => g[dataStartingRow + i][c])
  }

  /** The value a workbook sheet gives template column `name` in grid row `r`. */
  function NamedCell(g: Grid, name: string, r: nat): Cell
    requires r < |g|
  {
    match LastMatch(Header(g), name)
    case None => None
    case Some(c) => g[r][c]
  }

  /** The rows one workbook sheet contributes, one cell per template column. */
  function SheetRows(g: Grid, columns: seq<string>, dataStartingRow: nat): seq<Row> {
    if !AnyMatch(Header(g), columns) then
      []
    else
      seq(DataHeight(g, dataStartingRow), i requires 0 <= i < DataHeight(g, dataStartingRow) =>
        seq(|columns|, j requires 0 <= j < |columns| => NamedCell(g, columns[j], dataStartingRow + i)))
  }

  /** The per-workbook data frame after the first `c` columns of the sheet
      were visited: each template column assigned so far holds the values of
      the last visited column that carries its name. */
  ghost predicate IsFrameAfter(frame: map<string, seq<Cell>>, g: Grid, columns: seq<string>, dataStartingRow: nat, c: nat)
    requires c <= Width(g)
  {
    && (forall n :: n in frame <==> n in columns && LastMatch(Header(g)[..c], n).Some?)
    && (forall n :: n in frame ==>
          LastMatch(Header(g)[..c], n).Some? &&
          frame[n] == ColumnData(g, LastMatch(Header(g)[..c], n).value, dataStartingRow))
  }

  /** The rows of a data frame of height `h`; a frame with no column
      assigned has no rows, and an unassigned column is null. */
  function FrameRows(frame: map<string, seq<Cell>>, columns: seq<string>, h: nat): seq<Row> {
    if frame == map[] then
      []
    else
      seq(h, i requires 0 <= i < h =>
        seq(|columns|, j requires 0 <= j < |columns| =>
          if columns[j] in frame && i < |frame[columns[j]]| then frame[columns[j]][i] else None))
  }

  lemma LastMatchStep(header: Row, c: nat, name: string)
    requires c < |header|
    ensures LastMatch(header[..c + 1], name) ==
      if header[c] == Some(name) then Some(c) else LastMatch(header[..c], name)
  {
    assert header[..c + 1][..c] == header[..c];
  }

  lemma FrameRowsAreSheetRows(frame: map<string, seq<Cell>>, g: Grid, columns: seq<string>, dataStartingRow: nat)
    requires IsFrameAfter(frame, g, columns, dataStartingRow, Width(g))
    ensures FrameRows(frame, columns, DataHeight(g, dataStartingRow)) == SheetRows(g, columns, dataStartingRow)
  {
    var header := Header(g);
    assert header[..Width(g)] == header;
    if frame != map[] {
      var n :| n in frame;
      assert AnyMatch(header, columns) by {
        var c := LastMatch(header, n).value;
        assert header[c].Some? && header[c].value in columns;
      }
      var h := DataHeight(g, dataStartingRow);
      var rows := FrameRows(frame, columns, h);
      var expected := SheetRows(g, columns, dataStartingRow);
      forall i | 0 <= i < h ensures rows[i] == expected[i] {
        forall j | 0 <= j < |columns| ensures rows[i][j] == expected[i][j] {
          assert rows[i][j] == if columns[j] in frame && i < |frame[columns[j]]| then frame[columns[j]][i] else None;
          assert expected[i][j] == NamedCell(g, columns[j], dataStartingRow + i);
          if columns[j] in frame {
            var m := LastMatch(header, columns[j]).value;
            assert frame[columns[j]] == ColumnData(g, m, dataStartingRow);
            assert frame[columns[j]][i] == g[dataStartingRow + i][m];
          } else {
            assert LastMatch(header, columns[j]).None?;
          }
        }
      }
    }
  }

  /** The loop of draft.py:184-188: the per-workbook data frame, kept as a
      map from assigned column name to its values, then read out row by row. */
  method ReadSheet(g: Grid, columns: seq<string>, dataStartingRow: nat) returns (rows: seq<Row>)
    ensures rows == SheetRows(g, columns, dataStartingRow)
  {
    var header := Header(g);
    var frame: map<string, seq<Cell>> := map[];
    for c := 0 to |header|
      invariant IsFrameAfter(frame, g, columns, dataStartingRow, c)
    {
      forall n ensures LastMatch(header[..c + 1], n) ==
        if header[c] == Some(n) then Some(c) else LastMatch(header[..c], n)
      {
        LastMatchStep(header, c, n);
      }
      if header[c].Some? && header[c].value in columns {
        frame := frame[header[c].value := ColumnData(g, c, dataStartingRow)];
      }
    }
    rows := FrameRows(frame, columns, DataHeight(g, dataStartingRow));
    FrameRowsAreSheetRows(frame, g, columns, dataStartingRow);
  }

  /** Rows prepended to the outcome of the remaining work, which may raise. */
  function Prepend<T>(xs: seq<T>, rest: Result<seq<T>, Error>): Result<seq<T>, Error> {
    match rest
    case Failure(e) => Failure(e)
    case Success(more) => Success(xs + more)
  }

  lemma PrependAssoc<T>(xs: seq<T>, ys: seq<T>, rest: Result<seq<T>, Error>)
    ensures Prepend(xs, Prepend(ys, rest)) == Prepend(xs + ys, rest)
  {
    if rest.Success? {
      assert xs + (ys + rest.value) == (xs + ys) + rest.value;
    }
  }

  lemma PrependEmpty<T>(rest: Result<seq<T>, Error>)
    ensures Prepend([], rest) == rest
  {
    if rest.Success? {
      assert [] + rest.value == rest.value;
    }
  }

  /** The rows of one template sheet from every workbook, in corpus order,
      before filtering; a workbook without the sheet raises `KeyError`. */
  function StackedRows(c: seq<Entry>, ts: TemplateSheet, dataStartingRow: nat): Result<seq<Row>, Error>
    decreases |c|
  {
    if c == [] then Success([])
    else match Lookup(c[0].book, ts.name)
      case None => Failure(MissingSheet(c[0].key, ts.name))
      case Some(g) => Prepend(SheetRows(g, ts.columns, dataStartingRow), StackedRows(c[1..], ts, dataStartingRow))
  }

  /** The first position of the identifier column. */
  function IdentifierIndex(columns: seq<string>): (j: nat)
    requires IdentifierColumn in columns
    ensures j < |columns| && columns[j] == IdentifierColumn
    ensures forall k :: 0 <= k < j ==> columns[k] != IdentifierColumn
  {
    if columns[0] == IdentifierColumn then 0 else 1 + IdentifierIndex(columns[1..])
  }

  /** `pandas_sheet['iati-identifier'].notnull()` for one row. */
  function Identified(j: nat): Row -> bool {
    (r: Row) => j < |r| && r[j].Some?
  }

  /** A row that `dropna(how='all')` keeps. */
  predicate HasValue(r: Row) {
    exists k :: 0 <= k < |r| && r[k].Some?
  }

  /** The consolidated table of one template sheet. */
  function ConsolidateSheet(c: seq<Entry>, ts: TemplateSheet, dataStartingRow: nat): Result<Table, Error> {
    match StackedRows(c, ts, dataStartingRow)
    case Failure(e) => Failure(e)
    case Success(rows) =>
      if IdentifierColumn !in ts.columns then Failure(MissingIdentifierColumn(ts.name))
      else Success(Table(ts.columns, Filter(Filter(rows, Identified(IdentifierIndex(ts.columns))), HasValue)))
  }

  /** The consolidated tables of all template sheets, in template order; the
      first template sheet that raises ends the run. */
  function Consolidated(c: seq<Entry>, template: Template, dataStartingRow: nat): Result<seq<NamedTable>, Error>
    decreases |template|
  {
    if template == [] then Success([])
    else match ConsolidateSheet(c, template[0], dataStartingRow)
      case Failure(e) => Failure(e)
      case Success(t) => Prepend([NamedTable(template[0].name, t)], Consolidated(c, template[1..], dataStartingRow))
  }

  /** `get_consolidated_workbook`, with `data_starting_row` a 0-based row index. */
  method GetConsolidatedWorkbook(c: seq<Entry>, template: Template, dataStartingRow: nat := 3)
    returns (r: Result<seq<NamedTable>, Error>)
    ensures r == Consolidated(c, template, dataStartingRow)
  {
    var tables: seq<NamedTable> := [];
    assert template[0..] == template;
    PrependEmpty(Consolidated(c, template, dataStartingRow));
    for t := 0 to |template|
      invariant Consolidated(c, template, dataStartingRow) == Prepend(tables, Consolidated(c, template[t..], dataStartingRow))
    {
      var ts := template[t];
      assert template[t..][0] == ts && template[t..][1..] == template[t + 1..];
      var stacked: seq<Row> := [];
      assert c[0..] == c;
      PrependEmpty(StackedRows(c, ts, dataStartingRow));
      for k := 0 to |c|
        invariant StackedRows(c, ts, dataStartingRow) == Prepend(stacked, StackedRows(c[k..], ts, dataStartingRow))
      {
        assert c[k..][0] == c[k] && c[k..][1..] == c[k + 1..];
        var sheet := Lookup(c[k].book, ts.name);
        if sheet.None? {
          return Failure(MissingSheet(c[k].key, ts.name));
        }
        var rows := ReadSheet(sheet.value, ts.columns, dataStartingRow);
        PrependAssoc(stacked, rows, StackedRows(c[k + 1..], ts, dataStartingRow));
        stacked := stacked + rows;
      }
      assert c[|c|..] == [];
      assert stacked + [] == stacked;
      assert StackedRows(c, ts, dataStartingRow) == Success(stacked);
      if IdentifierColumn !in ts.columns {
        return Failure(MissingIdentifierColumn(ts.name));
      }
      var identified := Filter(stacked, Identified(IdentifierIndex(ts.columns)));
      var table := Table(ts.columns, Filter(identified, HasValue));
      PrependAssoc(tables, [NamedTable(ts.name, table)], Consolidated(c, template[t + 1..], dataStartingRow));
      tables := tables + [NamedTable(ts.name, table)];
    }
    assert template[|template|..] == [];
    assert tables + [] == tables;
    r := Success(tables);
  }

  // ----- What a workbook sheet contributes -----

  /** A sheet none of whose headers names a template column contributes no rows. */
  lemma SheetRowsWithoutMatch(g: Grid, columns: seq<string>, dataStartingRow: nat)
    requires forall c :: 0 <= c < Width(g) ==> g[0][c].None? || g[0][c].value !in columns
    ensures SheetRows(g, columns, dataStartingRow) == []
  {
  }

  /** A sheet with a matching header contributes one row, as wide as the
      template, for each grid row at 0-based index `dataStartingRow` or later:
      rows above it (the header and the documentation rows) are never read. */
  lemma SheetRowsShape(g: Grid, columns: seq<string>, dataStartingRow: nat, c: nat)
    requires c < Width(g) && g[0][c].Some? && g[0][c].value in columns
    ensures |SheetRows(g, columns, dataStartingRow)| == if |g| > dataStartingRow then |g| - dataStartingRow else 0
    ensures forall i :: 0 <= i < |SheetRows(g, columns, dataStartingRow)| ==>
      |SheetRows(g, columns, dataStartingRow)[i]| == |columns|
  {
  }

  /** Cell `j` of contributed row `i` is that of grid row `dataStartingRow + i`
      in the last column headed with template column `j`'s name, and null when
      no column is so headed. */
  lemma SheetRowsCell(g: Grid, columns: seq<string>, dataStartingRow: nat, i: nat, j: nat)
    requires i < |SheetRows(g, columns, dataStartingRow)| && j < |columns|
    ensures dataStartingRow + i < |g|
    ensures (forall c :: 0 <= c < Width(g) ==> g[0][c] != Some(columns[j])) ==>
      SheetRows(g, columns, dataStartingRow)[i][j] == None
    ensures forall c ::
      (0 <= c < Width(g) && g[0][c] == Some(columns[j]) &&
       forall c' :: c < c' < Width(g) ==> g[0][c'] != Some(columns[j])) ==>
      SheetRows(g, columns, dataStartingRow)[i][j] == g[dataStartingRow + i][c]
  {
    assert SheetRows(g, columns, dataStartingRow)[i][j] == NamedCell(g, columns[j], dataStartingRow + i);
  }

  // ----- Stacking across the corpus -----

  /** Stacking fails exactly when some workbook lacks the template sheet, and
      then it names the first such workbook. */
  lemma {:induction false} StackedRowsOutcome(c: seq<Entry>, ts: TemplateSheet, dataStartingRow: nat)
    ensures StackedRows(c, ts, dataStartingRow).Success? <==>
      forall k :: 0 <= k < |c| ==> ts.name in NameSet(c[k].book)
    ensures StackedRows(c, ts, dataStartingRow).Failure? ==>
      exists k :: 0 <= k < |c| && ts.name !in NameSet(c[k].book)
        && (forall k' :: 0 <= k' < k ==> ts.name in NameSet(c[k'].book))
        && StackedRows(c, ts, dataStartingRow).error == MissingSheet(c[k].key, ts.name)
    decreases |c|
  {
    if c != [] {
      StackedRowsOutcome(c[1..], ts, dataStartingRow);
      forall k | 0 <= k < |c[1..]| ensures c[1..][k] == c[k + 1] { }
      if ts.name in NameSet(c[0].book) && StackedRows(c[1..], ts, dataStartingRow).Failure? {
        var k :| 0 <= k < |c[1..]| && ts.name !in NameSet(c[1..][k].book)
          && (forall k' :: 0 <= k' < k ==> ts.name in NameSet(c[1..][k'].book))
          && StackedRows(c[1..], ts, dataStartingRow).error == MissingSheet(c[1..][k].key, ts.name);
        assert forall k' :: 0 <= k' < k + 1 ==> ts.name in NameSet(c[k'].book) by {
          forall k' | 0 <= k' < k + 1 ensures ts.name in NameSet(c[k'].book) {
            if k' > 0 {
              assert c[k'] == c[1..][k' - 1];
            }
          }
        }
        assert c[k + 1] == c[1..][k];
      }
    }
  }

  /** The rows of two runs of workbooks are those of the first run followed
      by those of the second: rows follow corpus order. */
  lemma {:induction false} StackedRowsAppend(a: seq<Entry>, b: seq<Entry>, ts: TemplateSheet, dataStartingRow: nat)
    ensures StackedRows(a + b, ts, dataStartingRow) ==
      match StackedRows(a, ts, dataStartingRow)
      case Failure(e) => Failure(e)
      case Success(rows) => Prepend(rows, StackedRows(b, ts, dataStartingRow))
    decreases |a|
  {
    if a == [] {
      assert a + b == b;
      PrependEmpty(StackedRows(b, ts, dataStartingRow));
    } else {
      assert (a + b)[0] == a[0] && (a + b)[1..] == a[1..] + b;
      StackedRowsAppend(a[1..], b, ts, dataStartingRow);
      var g := Lookup(a[0].book, ts.name);
      if g.Some? && StackedRows(a[1..], ts, dataStartingRow).Success? {
        PrependAssoc(SheetRows(g.value, ts.columns, dataStartingRow),
          StackedRows(a[1..], ts, dataStartingRow).value, StackedRows(b, ts, dataStartingRow));
      }
    }
  }

  /** One workbook contributes the rows of its own template sheet. */
  lemma StackedRowsSingle(e: Entry, ts: TemplateSheet, dataStartingRow: nat)
    requires ts.name in NameSet(e.book)
    ensures StackedRows([e], ts, dataStartingRow) ==
      Success(SheetRows(Lookup(e.book, ts.name).value, ts.columns, dataStartingRow))
  {
    assert [e][1..] == [];
    assert SheetRows(Lookup(e.book, ts.name).value, ts.columns, dataStartingRow) + []
        == SheetRows(Lookup(e.book, ts.name).value, ts.columns, dataStartingRow);
  }

  /** Every stacked row has one cell per template column. */
  lemma {:induction false} StackedRowsWidth(c: seq<Entry>, ts: TemplateSheet, dataStartingRow: nat)
    requires StackedRows(c, ts, dataStartingRow).Success?
    ensures forall k :: 0 <= k < |StackedRows(c, ts, dataStartingRow).value| ==>
      |StackedRows(c, ts, dataStartingRow).value[k]| == |ts.columns|
    decreases |c|
  {
    if c != [] {
      StackedRowsWidth(c[1..], ts, dataStartingRow);
    }
  }

  // ----- Filtering -----

  /** `dropna(how='all')` after the identifier filter removes nothing. */
  lemma DropEmptyRemovesNothing(rows: seq<Row>, j: nat)
    ensures Filter(Filter(rows, Identified(j)), HasValue) == Filter(rows, Identified(j))
  {
    var identified := Filter(rows, Identified(j));
    forall k | 0 <= k < |identified| ensures HasValue(identified[k]) {
      assert identified[k][j].Some?;
    }
    FilterIdentity(identified, HasValue);
  }

  /** A template sheet consolidates exactly when every workbook has it and its
      columns include the identifier. On success its table has the template's
      columns, and its rows are the stacked rows whose identifier is present,
      in order. */
  lemma ConsolidateSheetOutcome(c: seq<Entry>, ts: TemplateSheet, dataStartingRow: nat)
    ensures ConsolidateSheet(c, ts, dataStartingRow).Success? <==>
      (forall k :: 0 <= k < |c| ==> ts.name in NameSet(c[k].book)) && IdentifierColumn in ts.columns
    ensures ConsolidateSheet(c, ts, dataStartingRow).Success? ==>
      && ConsolidateSheet(c, ts, dataStartingRow).value.columns == ts.columns
      && ConsolidateSheet(c, ts, dataStartingRow).value.rows ==
           Filter(StackedRows(c, ts, dataStartingRow).value, Identified(IdentifierIndex(ts.columns)))
  {
    StackedRowsOutcome(c, ts, dataStartingRow);
    if ConsolidateSheet(c, ts, dataStartingRow).Success? {
      DropEmptyRemovesNothing(StackedRows(c, ts, dataStartingRow).value, IdentifierIndex(ts.columns));
    }
  }

  /** No row of a consolidated table lacks its identifier, and every row has
      one cell per column. */
  lemma ConsolidateSheetRowsIdentified(c: seq<Entry>, ts: TemplateSheet, dataStartingRow: nat)
    requires ConsolidateSheet(c, ts, dataStartingRow).Success?
    ensures var t := ConsolidateSheet(c, ts, dataStartingRow).value;
      forall k :: 0 <= k < |t.rows| ==>
        |t.rows[k]| == |t.columns| && t.rows[k][IdentifierIndex(t.columns)].Some?
  {
    ConsolidateSheetOutcome(c, ts, dataStartingRow);
    var rows := StackedRows(c, ts, dataStartingRow).value;
    var j := IdentifierIndex(ts.columns);
    StackedRowsWidth(c, ts, dataStartingRow);
    forall k | 0 <= k < |Filter(rows, Identified(j))| ensures |Filter(rows, Identified(j))[k]| == |ts.columns| {
      FilterMember(rows, Identified(j), Filter(rows, Identified(j))[k]);
    }
  }

  // ----- The whole consolidation -----

  /** Consolidation succeeds exactly when every template sheet does. */
  lemma {:induction false} ConsolidatedOutcome(c: seq<Entry>, template: Template, dataStartingRow: nat)
    ensures Consolidated(c, template, dataStartingRow).Success? <==>
      forall i :: 0 <= i < |template| ==> ConsolidateSheet(c, template[i], dataStartingRow).Success?
    decreases |template|
  {
    if template != [] {
      var rest := template[1..];
      ConsolidatedOutcome(c, rest, dataStartingRow);
      assert forall i :: 0 <= i < |rest| ==> rest[i] == template[i + 1];
    }
  }

  /** A successful consolidation has table `i` from template sheet `i`,
      under its name. */
  lemma {:induction false} ConsolidatedTables(c: seq<Entry>, template: Template, dataStartingRow: nat)
    ensures Consolidated(c, template, dataStartingRow).Success? ==>
      && |Consolidated(c, template, dataStartingRow).value| == |template|
      && forall i :: 0 <= i < |template| ==>
           && Consolidated(c, template, dataStartingRow).value[i].name == template[i].name
           && ConsolidateSheet(c, template[i], dataStartingRow) == Success(Consolidated(c, template, dataStartingRow).value[i].table)
    decreases |template|
  {
    if template != [] && Consolidated(c, template, dataStartingRow).Success? {
      var rest := template[1..];
      ConsolidatedTables(c, rest, dataStartingRow);
      var head := ConsolidateSheet(c, template[0], dataStartingRow);
      var tables := Consolidated(c, rest, dataStartingRow).value;
      assert Consolidated(c, template, dataStartingRow).value == [NamedTable(template[0].name, head.value)] + tables;
      assert forall i :: 0 <= i < |rest| ==> rest[i] == template[i + 1];
    }
  }

  /** Consolidation succeeds exactly when every workbook has every template
      sheet and every template sheet has the identifier column. */
  lemma ConsolidatedSucceeds(c: seq<Entry>, template: Template, dataStartingRow: nat)
    ensures Consolidated(c, template, dataStartingRow).Success? <==>
      && (forall i, k :: 0 <= i < |template| && 0 <= k < |c| ==> template[i].name in NameSet(c[k].book))
      && (forall i :: 0 <= i < |template| ==> IdentifierColumn in template[i].columns)
  {
    ConsolidatedOutcome(c, template, dataStartingRow);
    ConsolidatedTables(c, template, dataStartingRow);
    forall i | 0 <= i < |template|
      ensures ConsolidateSheet(c, template[i], dataStartingRow).Success? <==>
        (forall k :: 0 <= k < |c| ==> template[i].name in NameSet(c[k].book)) && IdentifierColumn in template[i].columns
    {
      ConsolidateSheetOutcome(c, template[i], dataStartingRow);
    }
  }

  /** One table per template sheet, in template order, under the sheet's name,
      with exactly the template's columns; no row anywhere has a null
      identifier. */
  lemma ConsolidatedShape(c: seq<Entry>, template: Template, dataStartingRow: nat)
    requires Consolidated(c, template, dataStartingRow).Success?
    ensures var tables := Consolidated(c, template, dataStartingRow).value;
      && |tables| == |template|
      && (forall i :: 0 <= i < |template| ==>
            tables[i].name == template[i].name && tables[i].table.columns == template[i].columns)
      && (forall i :: 0 <= i < |template| ==> IdentifierColumn in template[i].columns)
      && (forall i, k :: 0 <= i < |template| && 0 <= k < |tables[i].table.rows| ==>
            && IdentifierColumn in template[i].columns
            && |tables[i].table.rows[k]| == |template[i].columns|
            && tables[i].table.rows[k][IdentifierIndex(template[i].columns)].Some?)
  {
    ConsolidatedOutcome(c, template, dataStartingRow);
    ConsolidatedTables(c, template, dataStartingRow);
    var tables := Consolidated(c, template, dataStartingRow).value;
    forall i | 0 <= i < |template|
      ensures tables[i].name == template[i].name && tables[i].table.columns == template[i].columns
      ensures IdentifierColumn in template[i].columns
      ensures forall k :: 0 <= k < |tables[i].table.rows| ==>
        |tables[i].table.rows[k]| == |template[i].columns| &&
        tables[i].table.rows[k][IdentifierIndex(template[i].columns)].Some?
    {
      ConsolidateSheetOutcome(c, template[i], dataStartingRow);
      ConsolidateSheetRowsIdentified(c, template[i], dataStartingRow);
    }
  }

  /** With distinct template names no table name repeats, so the `try` of
      draft.py:195-198 always takes its `KeyError` branch. */
  lemma ConsolidatedNamesDistinct(c: seq<Entry>, template: Template, dataStartingRow: nat)
    requires DistinctTemplateNames(template)
    requires Consolidated(c, template, dataStartingRow).Success?
    ensures var tables := Consolidated(c, template, dataStartingRow).value;
      forall i, j :: 0 <= i < j < |tables| ==> tables[i].name != tables[j].name
  {
    ConsolidatedOutcome(c, template, dataStartingRow);
    ConsolidatedTables(c, template, dataStartingRow);
  }
}
