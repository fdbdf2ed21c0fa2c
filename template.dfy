/** Template extraction: the canonical schema, sheet name to ordered column
    names, read from a reference workbook (`register_template`). Sheets and
    columns whose names start with the comment marker are documentation. */
module Template {
  import opened Wrappers
  import opened Seqs
  import opened Workbooks

  const CommentMarker: char := '#'

  /** Names beginning with `#` are documentation. OpenPyXL refuses empty
      sheet titles, so `sheetname[0]` always exists for a sheet name. */
  predicate IsComment(s: string) {
    |s| > 0 && s[0] == CommentMarker
  }

  predicate IsDataSheet(s: Sheet) {
    !IsComment(s.name)
  }

  /** The sheets that are not documentation, in tab order. */
  function DataSheets(wb: Workbook): seq<Sheet> {
    Filter(wb.sheets, IsDataSheet)
  }

  /** A header value that names a template column. */
  predicate IsColumnName(c: Cell) {
    c.Some? && !IsComment(c.value)
  }

  /** `cell.value[0]` is evaluated for every present header value, so an
      empty string raises `IndexError`. */
  predicate HasEmptyValue(h: Row) {
    Some("") in h
  }

  /** The comprehension of draft.py:29: the header values that are present
      and not documentation, in column order, duplicates kept. */
  function HeaderColumns(h: Row): seq<string> {
    Values(Filter(h, IsColumnName))
  }

  /** The strings held by a row of present cells. */
  function Values(cells: Row): seq<string>
    requires forall i :: 0 <= i < |cells| ==> cells[i].Some?
  {
    seq(|cells|, i requires 0 <= i < |cells| => cells[i].value)
  }

  datatype TemplateSheet = TemplateSheet(name: string, columns: seq<string>)

  /** The schema, in the insertion order of the dict that holds it. */
  type Template = seq<TemplateSheet>

  function TemplateSheetOf(s: Sheet): TemplateSheet {
    TemplateSheet(s.name, HeaderColumns(Header(s.grid)))
  }

  /** `register_template` after the workbook is loaded: one entry per data
      sheet, in tab order, holding that sheet's filtered header; it raises at
      the first data sheet whose header holds an empty string. */
  method RegisterTemplate(wb: Workbook) returns (r: Result<Template, Error>)
    ensures r.Success? <==>
      forall i :: 0 <= i < |DataSheets(wb)| ==> !HasEmptyValue(Header(DataSheets(wb)[i].grid))
    ensures r.Success? ==>
      && |r.value| == |DataSheets(wb)|
      && forall i :: 0 <= i < |r.value| ==> r.value[i] == TemplateSheetOf(DataSheets(wb)[i])
    ensures r.Failure? ==>
      exists i :: 0 <= i < |DataSheets(wb)|
        && HasEmptyValue(Header(DataSheets(wb)[i].grid))
        && (forall j :: 0 <= j < i ==> !HasEmptyValue(Header(DataSheets(wb)[j].grid)))
        && r.error == EmptyHeaderValue(DataSheets(wb)[i].name)
  {
    var result: seq<TemplateSheet> := [];
    for k := 0 to |wb.sheets|
      invariant |result| == |Filter(wb.sheets[..k], IsDataSheet)|
      invariant forall i :: 0 <= i < |result| ==>
        && result[i] == TemplateSheetOf(Filter(wb.sheets[..k], IsDataSheet)[i])
        && !HasEmptyValue(Header(Filter(wb.sheets[..k], IsDataSheet)[i].grid))
    {
      var sheet := wb.sheets[k];
      DataSheetsStep(wb.sheets, k);
      if !IsComment(sheet.name) {
        if HasEmptyValue(Header(sheet.grid)) {
          DataSheetsAt(wb.sheets, k);
          assert DataSheets(wb)[|result|] == sheet;
          return Failure(EmptyHeaderValue(sheet.name));
        }
        result := result + [TemplateSheetOf(sheet)];
      }
    }
    assert wb.sheets[..|wb.sheets|] == wb.sheets;
    return Success(result);
  }

  /** One more tab extends the data sheets by that tab when it is not documentation. */
  lemma DataSheetsStep(ss: seq<Sheet>, k: nat)
    requires k < |ss|
    ensures Filter(ss[..k + 1], IsDataSheet) ==
      Filter(ss[..k], IsDataSheet) + (if IsDataSheet(ss[k]) then [ss[k]] else [])
  {
    assert ss[..k + 1][..k] == ss[..k];
  }

  /** A data tab sits among the data sheets right after those of the tabs before it. */
  lemma DataSheetsAt(ss: seq<Sheet>, k: nat)
    requires k < |ss| && IsDataSheet(ss[k])
    ensures var before := Filter(ss[..k], IsDataSheet);
      && |before| < |Filter(ss, IsDataSheet)|
      && Filter(ss, IsDataSheet)[|before|] == ss[k]
      && forall j :: 0 <= j < |before| ==> Filter(ss, IsDataSheet)[j] == before[j]
  {
    DataSheetsStep(ss, k);
    assert ss == ss[..k + 1] + ss[k + 1..];
    FilterAppend(ss[..k + 1], ss[k + 1..], IsDataSheet);
  }

  /** The template's sheets are exactly the workbook's non-documentation sheets. */
  lemma DataSheetsExact(wb: Workbook, s: Sheet)
    ensures s in DataSheets(wb) <==> s in wb.sheets && !IsComment(s.name)
  {
    FilterMember(wb.sheets, IsDataSheet, s);
  }

  /** Tab order is kept: the data sheets of two runs of tabs are those of the
      first run followed by those of the second. */
  lemma DataSheetsOrder(a: seq<Sheet>, b: seq<Sheet>)
    ensures DataSheets(Workbook(a + b)) == DataSheets(Workbook(a)) + DataSheets(Workbook(b))
  {
    FilterAppend(a, b, IsDataSheet);
  }

  /** Column order is kept: the template columns of two runs of header cells
      are those of the first run followed by those of the second. */
  lemma HeaderColumnsAppend(a: Row, b: Row)
    ensures HeaderColumns(a + b) == HeaderColumns(a) + HeaderColumns(b)
  {
    FilterAppend(a, b, IsColumnName);
  }

  /** No template column is documentation, and each is present in the header;
      each present non-documentation header value is a template column. */
  lemma HeaderColumnsMember(h: Row, v: string)
    ensures v in HeaderColumns(h) <==> Some(v) in h && !IsComment(v)
  {
    var kept := Filter(h, IsColumnName);
    FilterMember(h, IsColumnName, Some(v));
    if v in HeaderColumns(h) {
      var i :| 0 <= i < |kept| && HeaderColumns(h)[i] == v;
      assert kept[i] == Some(v);
    }
    if Some(v) in kept {
      var i :| 0 <= i < |kept| && kept[i] == Some(v);
      assert HeaderColumns(h)[i] == v;
    }
  }

  /** Stripping `Some` keeps every occurrence. */
  lemma {:induction false} ValuesCount(cells: Row, v: string)
    requires forall i :: 0 <= i < |cells| ==> cells[i].Some?
    ensures multiset(Values(cells))[v] == multiset(cells)[Some(v)]
    decreases |cells|
  {
    if cells != [] {
      var init := cells[..|cells| - 1];
      assert cells == init + [cells[|cells| - 1]];
      assert Values(cells) == Values(init) + [cells[|cells| - 1].value];
      ValuesCount(init, v);
    }
  }

  /** Duplicates are not collapsed: a non-documentation name occurs among the
      template columns as often as it occurs in the header. */
  lemma HeaderColumnsCount(h: Row, v: string)
    ensures multiset(HeaderColumns(h))[v] == if IsComment(v) then 0 else multiset(h)[Some(v)]
  {
    ValuesCount(Filter(h, IsColumnName), v);
    FilterCount(h, IsColumnName, Some(v));
  }
}
