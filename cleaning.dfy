/** The in-place cleaning stages run over the corpus before consolidation:
    sheet pruning (`delete_unwanted_sheets`), heading substitution
    (`make_heading_substitutions`), guarded column blanking
    (`clean_suspected_heading_duplicates`), and the header-width report
    (`get_column_counts`). */
module Cleaning {
  import opened Wrappers
  import opened Seqs
  import opened Workbooks
  import Diagnostics

  // ----- Sheet pruning -----

  function NotDeleted(deleteList: set<string>): Sheet -> bool {
    (s: Sheet) => s.name !in deleteList
  }

  /** A workbook without the sheets whose names are listed. */
  function Pruned(wb: Workbook, deleteList: set<string>): Workbook {
    Workbook(Filter(wb.sheets, NotDeleted(deleteList)))
  }

  function PrunedCorpus(c: seq<Entry>, deleteList: set<string>): (r: seq<Entry>)
    ensures |r| == |c|
    ensures forall i :: 0 <= i < |c| ==> r[i] == Entry(c[i].key, Pruned(c[i].book, deleteList))
  {
    seq(|c|, i requires 0 <= i < |c| => Entry(c[i].key, Pruned(c[i].book, deleteList)))
  }

  /** `book.remove_sheet(book.get_sheet_by_name(n))`: drops the first sheet titled `n`. */
  function RemoveSheet(ss: seq<Sheet>, n: string): seq<Sheet> {
    if ss == [] then []
    else if ss[0].name == n then ss[1..]
    else [ss[0]] + RemoveSheet(ss[1..], n)
  }

  lemma {:induction false} RemoveSheetAfter(a: seq<Sheet>, b: seq<Sheet>, n: string)
    requires forall i :: 0 <= i < |a| ==> a[i].name != n
    requires b != [] && b[0].name == n
    ensures RemoveSheet(a + b, n) == a + b[1..]
    decreases |a|
  {
    if a != [] {
      assert (a + b)[1..] == a[1..] + b;
      RemoveSheetAfter(a[1..], b, n);
    }
  }

  /** One step of the pruning loop: removing the `k`-th sheet's title when it
      is listed, or keeping it otherwise, extends the pruned prefix by one. */
  lemma PruneStep(ss: seq<Sheet>, deleteList: set<string>, k: nat)
    requires k < |ss|
    ensures var before := Filter(ss[..k], NotDeleted(deleteList)) + ss[k..];
      Filter(ss[..k + 1], NotDeleted(deleteList)) + ss[k + 1..] ==
        if ss[k].name in deleteList then RemoveSheet(before, ss[k].name) else before
  {
    var p := NotDeleted(deleteList);
    var kept := Filter(ss[..k], p);
    assert ss[..k + 1] == ss[..k] + [ss[k]];
    FilterAppend(ss[..k], [ss[k]], p);
    assert Filter([ss[k]], p) == Filter([], p) + (if p(ss[k]) then [ss[k]] else []);
    if ss[k].name in deleteList {
      RemoveSheetAfter(kept, ss[k..], ss[k].name);
      assert ss[k..][1..] == ss[k + 1..];
    } else {
      assert ss[k..] == [ss[k]] + ss[k + 1..];
    }
  }

  /** The loop of draft.py:93-95 over one workbook: each listed sheet name,
      taken from a snapshot of the sheet names, has its sheet removed. */
  method PruneWorkbook(wb: Workbook, deleteList: set<string>) returns (pruned: Workbook)
    ensures pruned == Pruned(wb, deleteList)
  {
    var names := SheetNames(wb);
    pruned := wb;
    for k := 0 to |names|
      invariant pruned.sheets == Filter(wb.sheets[..k], NotDeleted(deleteList)) + wb.sheets[k..]
    {
      PruneStep(wb.sheets, deleteList, k);
      if names[k] in deleteList {
        pruned := Workbook(RemoveSheet(pruned.sheets, names[k]));
      }
    }
    assert wb.sheets[..|names|] == wb.sheets;
  }

  /** No listed sheet survives. */
  lemma PrunedRemovesListed(wb: Workbook, deleteList: set<string>)
    ensures forall n :: n in NameSet(Pruned(wb, deleteList)) ==> n !in deleteList
  {
  }

  /** The surviving sheets, names and contents, are exactly the unlisted ones. */
  lemma PrunedKeepsUnlisted(wb: Workbook, deleteList: set<string>, s: Sheet)
    ensures s in Pruned(wb, deleteList).sheets <==> s in wb.sheets && s.name !in deleteList
  {
    FilterMember(wb.sheets, NotDeleted(deleteList), s);
  }

  /** The surviving sheets keep their tab order. */
  lemma PrunedOrder(a: seq<Sheet>, b: seq<Sheet>, deleteList: set<string>)
    ensures Pruned(Workbook(a + b), deleteList).sheets
         == Pruned(Workbook(a), deleteList).sheets + Pruned(Workbook(b), deleteList).sheets
  {
    FilterAppend(a, b, NotDeleted(deleteList));
  }

  /** Pruning twice with the same list is pruning once. */
  lemma PrunedIdempotent(c: seq<Entry>, deleteList: set<string>)
    ensures PrunedCorpus(PrunedCorpus(c, deleteList), deleteList) == PrunedCorpus(c, deleteList)
  {
    forall i | 0 <= i < |c|
      ensures Pruned(Pruned(c[i].book, deleteList), deleteList) == Pruned(c[i].book, deleteList)
    {
      FilterIdempotent(c[i].book.sheets, NotDeleted(deleteList));
    }
  }

  lemma {:induction false} FilterDistinctNames(ss: seq<Sheet>, p: Sheet -> bool)
    requires DistinctNames(Workbook(ss))
    ensures DistinctNames(Workbook(Filter(ss, p)))
    decreases |ss|
  {
    if ss != [] {
      var ss' := ss[..|ss| - 1];
      var last := ss[|ss| - 1];
      FilterDistinctNames(ss', p);
      forall i | 0 <= i < |Filter(ss', p)| ensures Filter(ss', p)[i].name != last.name {
        FilterMember(ss', p, Filter(ss', p)[i]);
      }
    }
  }

  /** Pruning with the report of non-standard names, computed against some
      expected set, leaves only expected sheet names in every workbook. */
  lemma PruningNonStandardLeavesExpected(c: seq<Entry>, predefined: seq<string>)
    requires c != []
    ensures var deleteList := Diagnostics.GetNonStandardSheetnames(c, predefined).value;
      forall i, n :: 0 <= i < |c| && n in NameSet(PrunedCorpus(c, deleteList)[i].book)
        ==> n in Diagnostics.ExpectedNames(c, predefined)
  {
    var deleteList := Diagnostics.GetNonStandardSheetnames(c, predefined).value;
    forall i, n | 0 <= i < |c| && n in NameSet(PrunedCorpus(c, deleteList)[i].book)
      ensures n in Diagnostics.ExpectedNames(c, predefined)
    {
      var pruned := Pruned(c[i].book, deleteList);
      var j :| 0 <= j < |pruned.sheets| && pruned.sheets[j].name == n;
      PrunedKeepsUnlisted(c[i].book, deleteList, pruned.sheets[j]);
      var k :| 0 <= k < |c[i].book.sheets| && c[i].book.sheets[k] == pruned.sheets[j];
      assert n in NameSet(c[i].book);
      Diagnostics.NonStandardMember(c, predefined, n);
    }
  }

  // ----- Heading substitution -----

  /** One header cell after correction: a value that is a key of the
      substitutions is replaced by its mapped value, once. A mapped value is a
      cell, since a JSON `null` target clears the header cell. */
  function Corrected(cell: Cell, substitutions: map<string, Cell>): Cell {
    if cell.Some? && cell.value in substitutions then substitutions[cell.value] else cell
  }

  function CorrectedHeader(h: Row, substitutions: map<string, Cell>): (r: Row)
    ensures |r| == |h|
  {
    seq(|h|, i requires 0 <= i < |h| => Corrected(h[i], substitutions))
  }

  /** A sheet whose header row is corrected and whose other rows are untouched. */
  function CorrectedGrid(g: Grid, substitutions: map<string, Cell>): (r: Grid)
    ensures |r| == |g|
  {
    if |g| == 0 then g else [CorrectedHeader(g[0], substitutions)] + g[1..]
  }

  function CorrectedBook(wb: Workbook, substitutions: map<string, Cell>): (r: Workbook)
    ensures |r.sheets| == |wb.sheets|
    ensures forall j :: 0 <= j < |wb.sheets| ==>
      r.sheets[j] == Sheet(wb.sheets[j].name, CorrectedGrid(wb.sheets[j].grid, substitutions))
  {
    Workbook(seq(|wb.sheets|, j requires 0 <= j < |wb.sheets| =>
      Sheet(wb.sheets[j].name, CorrectedGrid(wb.sheets[j].grid, substitutions))))
  }

  function CorrectedCorpus(c: seq<Entry>, substitutions: map<string, Cell>): (r: seq<Entry>)
    ensures |r| == |c|
    ensures forall i :: 0 <= i < |c| ==> r[i] == Entry(c[i].key, CorrectedBook(c[i].book, substitutions))
  {
    seq(|c|, i requires 0 <= i < |c| => Entry(c[i].key, CorrectedBook(c[i].book, substitutions)))
  }

  /** The loop of draft.py:101-104 over one header row. */
  method CorrectHeaderRow(h: Row, substitutions: map<string, Cell>) returns (out: Row)
    ensures |out| == |h|
    ensures forall i :: 0 <= i < |h| ==>
      out[i] == if h[i].Some? && h[i].value in substitutions then substitutions[h[i].value] else h[i]
  {
    out := h;
    for i := 0 to |h|
      invariant |out| == |h|
      invariant forall k :: 0 <= k < i ==> out[k] == Corrected(h[k], substitutions)
      invariant forall k :: i <= k < |h| ==> out[k] == h[k]
    {
      if out[i].Some? && out[i].value in substitutions {
        out := out[i := substitutions[out[i].value]];
      }
    }
  }

  /** The loop of draft.py:100-104 over the sheets of one workbook. */
  method CorrectWorkbook(wb: Workbook, substitutions: map<string, Cell>) returns (out: Workbook)
    ensures out == CorrectedBook(wb, substitutions)
  {
    out := wb;
    for j := 0 to |wb.sheets|
      invariant |out.sheets| == |wb.sheets|
      invariant forall k :: 0 <= k < j ==>
        out.sheets[k] == Sheet(wb.sheets[k].name, CorrectedGrid(wb.sheets[k].grid, substitutions))
      invariant forall k :: j <= k < |wb.sheets| ==> out.sheets[k] == wb.sheets[k]
    {
      var g := wb.sheets[j].grid;
      if |g| > 0 {
        var header := CorrectHeaderRow(g[0], substitutions);
        assert header == CorrectedHeader(g[0], substitutions);
        var g': Grid := [header] + g[1..];
        out := Workbook(out.sheets[j := Sheet(wb.sheets[j].name, g')]);
      }
    }
  }

  /** After correction, each header cell holds its corrected original value;
      every other row, every sheet name and the corpus keys are unchanged. */
  lemma CorrectedCorpusCells(c: seq<Entry>, substitutions: map<string, Cell>, i: nat, j: nat)
    requires i < |c| && j < |c[i].book.sheets|
    ensures var before := c[i].book.sheets[j];
      var after := CorrectedCorpus(c, substitutions)[i].book.sheets[j];
      && CorrectedCorpus(c, substitutions)[i].key == c[i].key
      && after.name == before.name
      && |after.grid| == |before.grid|
      && Header(after.grid) == CorrectedHeader(Header(before.grid), substitutions)
      && forall r :: 1 <= r < |before.grid| ==> after.grid[r] == before.grid[r]
  {
  }

  /** Correcting twice is correcting once when no mapped value is itself a key. */
  lemma CorrectedIdempotentWithoutChains(c: seq<Entry>, substitutions: map<string, Cell>)
    requires forall k :: k in substitutions ==> substitutions[k].None? || substitutions[k].value !in substitutions
    ensures CorrectedCorpus(CorrectedCorpus(c, substitutions), substitutions) == CorrectedCorpus(c, substitutions)
  {
    forall i | 0 <= i < |c|
      ensures CorrectedBook(CorrectedBook(c[i].book, substitutions), substitutions) == CorrectedBook(c[i].book, substitutions)
    {
      var wb := c[i].book;
      forall j | 0 <= j < |wb.sheets|
        ensures CorrectedGrid(CorrectedGrid(wb.sheets[j].grid, substitutions), substitutions)
             == CorrectedGrid(wb.sheets[j].grid, substitutions)
      {
        var g := wb.sheets[j].grid;
        if |g| > 0 {
          var once := CorrectedHeader(g[0], substitutions);
          assert CorrectedHeader(once, substitutions) == once;
          assert CorrectedGrid(g, substitutions)[1..] == g[1..];
        }
      }
    }
  }

  /** With a chained rule the stage is not idempotent: `a` -> `b` -> `c`. */
  lemma CorrectedChainedTwice()
    ensures var substitutions := map["a" := Some("b"), "b" := Some("c")];
      var c := [Entry("report.xlsx", Workbook([Sheet("Activity Level", [[Some("a")]])]))];
      && CorrectedCorpus(c, substitutions)[0].book.sheets[0].grid == [[Some("b")]]
      && CorrectedCorpus(CorrectedCorpus(c, substitutions), substitutions)[0].book.sheets[0].grid == [[Some("c")]]
  {
    var substitutions := map["a" := Some("b"), "b" := Some("c")];
    var g: Grid := [[Some("a")]];
    assert CorrectedHeader(g[0], substitutions) == [Some("b")];
    var g1: Grid := [[Some("b")]];
    assert CorrectedHeader(g1[0], substitutions) == [Some("c")];
  }

  // ----- Guarded column blanking -----

  /** Declared suspected duplicates of one sheet: 0-based column position to
      the header value the duplicate column is expected to carry. A declared
      value is a cell, since a JSON `null` compares equal to an empty header. */
  type ColumnRules = map<nat, Cell>

  /** A column is voided when it is declared and its header, read now, equals
      the declared value; a position beyond the sheet's width is left alone. */
  predicate Doomed(g: Grid, rules: ColumnRules, c: nat) {
    c in rules && c < Width(g) && g[0][c] == rules[c]
  }

  function Deduplicated(g: Grid, rules: ColumnRules): (r: Grid)
    ensures |r| == |g|
    ensures forall row :: 0 <= row < |g| ==> |r[row]| == |g[row]|
  {
    var r := seq(|g|, row requires 0 <= row < |g| =>
      seq(|g[row]|, c requires 0 <= c < |g[row]| => if Doomed(g, rules, c) then None else g[row][c]));
    assert IsRectangular(r);
    r
  }

  function DeduplicatedBook(wb: Workbook, dedups: map<string, ColumnRules>): (r: Workbook)
    ensures |r.sheets| == |wb.sheets|
    ensures forall j :: 0 <= j < |wb.sheets| ==>
      r.sheets[j] == (if wb.sheets[j].name in dedups
                      then Sheet(wb.sheets[j].name, Deduplicated(wb.sheets[j].grid, dedups[wb.sheets[j].name]))
                      else wb.sheets[j])
  {
    Workbook(seq(|wb.sheets|, j requires 0 <= j < |wb.sheets| =>
      if wb.sheets[j].name in dedups
      then Sheet(wb.sheets[j].name, Deduplicated(wb.sheets[j].grid, dedups[wb.sheets[j].name]))
      else wb.sheets[j]))
  }

  function DeduplicatedCorpus(c: seq<Entry>, dedups: map<string, ColumnRules>): (r: seq<Entry>)
    ensures |r| == |c|
    ensures forall i :: 0 <= i < |c| ==> r[i] == Entry(c[i].key, DeduplicatedBook(c[i].book, dedups))
  {
    seq(|c|, i requires 0 <= i < |c| => Entry(c[i].key, DeduplicatedBook(c[i].book, dedups)))
  }

  /** `for cell in sheet[col_letter]: cell.value = None`, header included. */
  method BlankColumn(g: Grid, c: nat) returns (out: Grid)
    requires c < Width(g)
    ensures |out| == |g|
    ensures forall r :: 0 <= r < |g| ==> out[r] == g[r][c := None]
  {
    out := g;
    for r := 0 to |g|
      invariant |out| == |g|
      invariant forall k :: 0 <= k < r ==> out[k] == g[k][c := None]
      invariant forall k :: r <= k < |g| ==> out[k] == g[k]
    {
      var row := out[r][c := None];
      assert |row| == |out[0]|;
      out := out[r := row];
    }
  }

  /** The loop of draft.py:114-119 over the declared columns of one sheet. */
  method DeduplicateSheet(g: Grid, rules: ColumnRules) returns (out: Grid)
    ensures out == Deduplicated(g, rules)
  {
    out := g;
    var pending := rules.Keys;
    while pending != {}
      invariant pending <= rules.Keys
      invariant |out| == |g|
      invariant forall r :: 0 <= r < |g| ==> |out[r]| == |g[r]|
      invariant forall r, c :: 0 <= r < |g| && 0 <= c < |g[r]| ==>
        out[r][c] == if c !in pending && Doomed(g, rules, c) then None else g[r][c]
      decreases pending
    {
      var col :| col in pending;
      if col < Width(out) && out[0][col] == rules[col] {
        out := BlankColumn(out, col);
      }
      pending := pending - {col};
    }
    var d := Deduplicated(g, rules);
    forall r | 0 <= r < |g| ensures out[r] == d[r] {
    }
  }

  /** The loop of draft.py:109-119 over the sheets of one workbook. */
  method DeduplicateWorkbook(wb: Workbook, dedups: map<string, ColumnRules>) returns (out: Workbook)
    ensures out == DeduplicatedBook(wb, dedups)
  {
    out := wb;
    for j := 0 to |wb.sheets|
      invariant |out.sheets| == |wb.sheets|
      invariant forall k :: 0 <= k < j ==> out.sheets[k] == DeduplicatedBook(wb, dedups).sheets[k]
      invariant forall k :: j <= k < |wb.sheets| ==> out.sheets[k] == wb.sheets[k]
    {
      var sheet := wb.sheets[j];
      if sheet.name in dedups {
        var g := DeduplicateSheet(sheet.grid, dedups[sheet.name]);
        out := Workbook(out.sheets[j := Sheet(sheet.name, g)]);
      }
    }
  }

  /** A cell is voided exactly when its sheet has rules and its column is a
      declared position whose header equals the declared value; every other
      cell, every sheet name and every sheet's dimensions are unchanged. */
  lemma DeduplicatedCorpusCells(c: seq<Entry>, dedups: map<string, ColumnRules>, i: nat, j: nat)
    requires i < |c| && j < |c[i].book.sheets|
    ensures var before := c[i].book.sheets[j];
      var after := DeduplicatedCorpus(c, dedups)[i].book.sheets[j];
      && after.name == before.name
      && |after.grid| == |before.grid|
      && Width(after.grid) == Width(before.grid)
      && forall r, col :: 0 <= r < |before.grid| && 0 <= col < Width(before.grid) ==>
        after.grid[r][col] ==
          if before.name in dedups && Doomed(before.grid, dedups[before.name], col) then None
          else before.grid[r][col]
  {
  }

  /** A declared column whose header does not carry the declared value is left alone. */
  lemma DeduplicatedSparesMismatch(g: Grid, rules: ColumnRules, col: nat)
    requires col in rules && col < Width(g) && g[0][col] != rules[col]
    ensures forall r :: 0 <= r < |g| ==> Deduplicated(g, rules)[r][col] == g[r][col]
  {
  }

  /** A `null` declared value voids a column whose header is empty: draft.py
      compares `None == None`. */
  lemma DeduplicatedNullRule(g: Grid, rules: ColumnRules, col: nat)
    requires col in rules && rules[col] == None && col < Width(g) && g[0][col] == None
    ensures forall r :: 0 <= r < |g| ==> Deduplicated(g, rules)[r][col] == None
  {
  }

  /** Running the stage a second time changes nothing: a column voided on
      the second run was already voided, and no other header changed. */
  lemma DeduplicatedIdempotent(c: seq<Entry>, dedups: map<string, ColumnRules>)
    ensures DeduplicatedCorpus(DeduplicatedCorpus(c, dedups), dedups) == DeduplicatedCorpus(c, dedups)
  {
    forall i | 0 <= i < |c|
      ensures DeduplicatedBook(DeduplicatedBook(c[i].book, dedups), dedups) == DeduplicatedBook(c[i].book, dedups)
    {
      var wb := c[i].book;
      forall j | 0 <= j < |wb.sheets| && wb.sheets[j].name in dedups
        ensures Deduplicated(Deduplicated(wb.sheets[j].grid, dedups[wb.sheets[j].name]), dedups[wb.sheets[j].name])
             == Deduplicated(wb.sheets[j].grid, dedups[wb.sheets[j].name])
      {
        var g := wb.sheets[j].grid;
        var rules := dedups[wb.sheets[j].name];
        var once := Deduplicated(g, rules);
        assert Width(once) == Width(g);
        forall col | 0 <= col < Width(g) && Doomed(once, rules, col) ensures Doomed(g, rules, col) {
        }
        forall r | 0 <= r < |g| ensures Deduplicated(once, rules)[r] == once[r] {
        }
      }
    }
  }

  // ----- Header-width report -----

  /** The header width of each sheet of a workbook, in tab order. */
  function Widths(wb: Workbook): (w: seq<nat>)
    ensures |w| == |wb.sheets|
    ensures forall j :: 0 <= j < |wb.sheets| ==> w[j] == Width(wb.sheets[j].grid)
  {
    seq(|wb.sheets|, j requires 0 <= j < |wb.sheets| => Width(wb.sheets[j].grid))
  }

  /** The inner loop of draft.py:154-155. */
  method HeaderWidths(wb: Workbook) returns (counts: seq<nat>)
    ensures counts == Widths(wb)
  {
    counts := [];
    for j := 0 to |wb.sheets|
      invariant counts == Widths(Workbook(wb.sheets[..j]))
    {
      counts := counts + [|Header(wb.sheets[j].grid)|];
    }
    assert wb.sheets[..|wb.sheets|] == wb.sheets;
  }

  /** Neither heading substitution nor column blanking changes any sheet's width. */
  lemma WidthsPreservedByCleaning(wb: Workbook, substitutions: map<string, Cell>, dedups: map<string, ColumnRules>)
    ensures Widths(CorrectedBook(wb, substitutions)) == Widths(wb)
    ensures Widths(DeduplicatedBook(wb, dedups)) == Widths(wb)
  {
  }

  // ----- The corpus, mutated in place stage by stage -----

  /** The keyed collection of workbooks the cleaning stages mutate. */
  class Corpus {
    var entries: seq<Entry>

    ghost predicate Valid()
      reads this
    {
      ValidCorpus(entries)
    }

    constructor (entries: seq<Entry>)
      requires ValidCorpus(entries)
      ensures Valid() && this.entries == entries
    {
      this.entries := entries;
    }

    /** `delete_unwanted_sheets`: removes every listed sheet from every workbook. */
    method DeleteUnwantedSheets(deleteList: set<string>)
      requires Valid()
      modifies this
      ensures Valid()
      ensures entries == PrunedCorpus(old(entries), deleteList)
    {
      ghost var c0 := entries;
      for i := 0 to |entries|
        invariant |entries| == |c0|
        invariant forall k :: 0 <= k < i ==> entries[k] == Entry(c0[k].key, Pruned(c0[k].book, deleteList))
        invariant forall k :: i <= k < |entries| ==> entries[k] == c0[k]
      {
        var book := PruneWorkbook(entries[i].book, deleteList);
        entries := entries[i := Entry(entries[i].key, book)];
      }
      forall i | 0 <= i < |c0| ensures DistinctNames(entries[i].book) {
        FilterDistinctNames(c0[i].book.sheets, NotDeleted(deleteList));
      }
    }

    /** `make_heading_substitutions`: corrects the header row of every sheet. */
    method MakeHeadingSubstitutions(substitutions: map<string, Cell>)
      requires Valid()
      modifies this
      ensures Valid()
      ensures entries == CorrectedCorpus(old(entries), substitutions)
    {
      ghost var c0 := entries;
      for i := 0 to |entries|
        invariant |entries| == |c0|
        invariant forall k :: 0 <= k < i ==> entries[k] == Entry(c0[k].key, CorrectedBook(c0[k].book, substitutions))
        invariant forall k :: i <= k < |entries| ==> entries[k] == c0[k]
      {
        var book := CorrectWorkbook(entries[i].book, substitutions);
        entries := entries[i := Entry(entries[i].key, book)];
      }
    }

    /** `clean_suspected_heading_duplicates`: voids every declared duplicate
        column whose header is confirmed. */
    method CleanSuspectedHeadingDuplicates(dedups: map<string, ColumnRules>)
      requires Valid()
      modifies this
      ensures Valid()
      ensures entries == DeduplicatedCorpus(old(entries), dedups)
    {
      ghost var c0 := entries;
      for i := 0 to |entries|
        invariant |entries| == |c0|
        invariant forall k :: 0 <= k < i ==> entries[k] == Entry(c0[k].key, DeduplicatedBook(c0[k].book, dedups))
        invariant forall k :: i <= k < |entries| ==> entries[k] == c0[k]
      {
        var book := DeduplicateWorkbook(entries[i].book, dedups);
        entries := entries[i := Entry(entries[i].key, book)];
      }
    }

    /** `get_column_counts`: each workbook's key with the header widths of
        its sheets in tab order, listed in the corpus's key order. */
    method GetColumnCounts() returns (counts: seq<(string, seq<nat>)>)
      requires Valid()
      ensures |counts| == |entries|
      ensures forall i :: 0 <= i < |entries| ==> counts[i].0 == entries[i].key && counts[i].1 == Widths(entries[i].book)
      ensures forall i, j :: 0 <= i < j < |counts| ==> counts[i].0 != counts[j].0
    {
      counts := [];
      for i := 0 to |entries|
        invariant |counts| == i
        invariant forall k :: 0 <= k < i ==> counts[k] == (entries[k].key, Widths(entries[k].book))
      {
        var widths := HeaderWidths(entries[i].book);
        counts := counts + [(entries[i].key, widths)];
      }
    }
  }
}
