/** A worked run of the pipeline on two small workbooks: diagnostics against
    the template's sheet names, pruning, then consolidation. */
module Scenarios {
  import opened Wrappers
  import opened Seqs
  import opened Workbooks
  import opened Template
  import opened Diagnostics
  import opened Cleaning
  import opened Consolidation

  const Date: string := "activity-date/0/@iso-date"

  /** Two documentation rows under each header; data from 0-based row 3. */
  const Doc: Row := [Some("# description"), None]

  /** Headers in template order; the second data row has no identifier. */
  const ActivitiesA: Grid := [[Some(IdentifierColumn), Some(Date)], Doc, Doc,
                              [Some("AA-1"), Some("2016-01-01")], [None, Some("2016-02-01")]]

  /** Headers in the other order, which consolidation does not depend on. */
  const ActivitiesB: Grid := [[Some(Date), Some(IdentifierColumn)], Doc, Doc,
                              [Some("2016-03-01"), Some("BB-1")]]

  const Notes: Grid := [[Some("remark")]]

  function ScenarioCorpus(): seq<Entry> {
    [ Entry("a.xlsx", Workbook([Sheet("Activity Level", ActivitiesA)])),
      Entry("b.xlsx", Workbook([Sheet("Activity Level", ActivitiesB), Sheet("Notes", Notes)])) ]
  }

  function ScenarioTemplate(): Template {
    [TemplateSheet("Activity Level", [IdentifierColumn, Date])]
  }

  /** The sheet only one workbook has is reported as non-standard. */
  lemma DiagnosticsScenario()
    ensures GetNonStandardSheetnames(ScenarioCorpus(), ["Activity Level"]) == Success({"Notes"})
  {
    var c := ScenarioCorpus();
    assert NameSet(c[0].book) == {"Activity Level"} by {
      assert c[0].book.sheets[0].name == "Activity Level";
    }
    assert NameSet(c[1].book) == {"Activity Level", "Notes"} by {
      assert c[1].book.sheets[0].name == "Activity Level";
      assert c[1].book.sheets[1].name == "Notes";
    }
    assert UnionNames(c) == {"Activity Level", "Notes"} by {
      assert c[1..][1..] == [];
    }
    assert ExpectedNames(c, ["Activity Level"]) == {"Activity Level"};
    assert UnionNames(c) - {"Activity Level"} == {"Notes"};
  }

  /** Deleting the reported sheet leaves one data sheet per workbook. */
  lemma PruningScenario()
    ensures PrunedCorpus(ScenarioCorpus(), {"Notes"}) ==
      [ Entry("a.xlsx", Workbook([Sheet("Activity Level", ActivitiesA)])),
        Entry("b.xlsx", Workbook([Sheet("Activity Level", ActivitiesB)])) ]
  {
    var c := ScenarioCorpus();
    assert Pruned(c[0].book, {"Notes"}) == Workbook([Sheet("Activity Level", ActivitiesA)]) by {
      assert c[0].book.sheets[..0] == [];
    }
    assert Pruned(c[1].book, {"Notes"}) == Workbook([Sheet("Activity Level", ActivitiesB)]) by {
      var ss := c[1].book.sheets;
      var p := NotDeleted({"Notes"});
      assert ss[..1] == [ss[0]] && ss[..1][..0] == [];
      assert Filter(ss[..1], p) == [ss[0]];
      assert !p(ss[1]);
      assert Filter(ss, p) == Filter(ss[..1], p);
    }
  }

  /** The first workbook's columns are already in template order. */
  lemma RowsAScenario()
    ensures SheetRows(ActivitiesA, [IdentifierColumn, Date], 3) ==
      [[Some("AA-1"), Some("2016-01-01")], [None, Some("2016-02-01")]]
  {
    var columns := [IdentifierColumn, Date];
    var rowsA := SheetRows(ActivitiesA, columns, 3);
    assert AnyMatch(Header(ActivitiesA), columns) by {
      assert Header(ActivitiesA)[0] == Some(IdentifierColumn);
    }
    assert LastMatch(Header(ActivitiesA), IdentifierColumn) == Some(0) by {
      assert Header(ActivitiesA)[..1] == [Some(IdentifierColumn)];
    }
    assert LastMatch(Header(ActivitiesA), Date) == Some(1);
    assert DataHeight(ActivitiesA, 3) == 2;
    assert rowsA[0] == [Some("AA-1"), Some("2016-01-01")] by {
      assert rowsA[0][0] == NamedCell(ActivitiesA, IdentifierColumn, 3);
      assert rowsA[0][1] == NamedCell(ActivitiesA, Date, 3);
    }
    assert rowsA[1] == [None, Some("2016-02-01")] by {
      assert rowsA[1][0] == NamedCell(ActivitiesA, IdentifierColumn, 4);
      assert rowsA[1][1] == NamedCell(ActivitiesA, Date, 4);
    }
  }

  /** The second workbook's columns are swapped; the rows come out in
      template order all the same. */
  lemma RowsBScenario()
    ensures SheetRows(ActivitiesB, [IdentifierColumn, Date], 3) ==
      [[Some("BB-1"), Some("2016-03-01")]]
  {
    var columns := [IdentifierColumn, Date];
    var rowsB := SheetRows(ActivitiesB, columns, 3);
    assert AnyMatch(Header(ActivitiesB), columns) by {
      assert Header(ActivitiesB)[0] == Some(Date);
    }
    assert LastMatch(Header(ActivitiesB), IdentifierColumn) == Some(1);
    assert LastMatch(Header(ActivitiesB), Date) == Some(0) by {
      assert Header(ActivitiesB)[..1] == [Some(Date)];
    }
    assert DataHeight(ActivitiesB, 3) == 1;
    assert rowsB[0] == [Some("BB-1"), Some("2016-03-01")] by {
      assert rowsB[0][0] == NamedCell(ActivitiesB, IdentifierColumn, 3);
      assert rowsB[0][1] == NamedCell(ActivitiesB, Date, 3);
    }
  }

  /** The data rows of both pruned workbooks, stacked in corpus order. */
  const StackedScenarioRows: seq<Row> :=
    [[Some("AA-1"), Some("2016-01-01")], [None, Some("2016-02-01")], [Some("BB-1"), Some("2016-03-01")]]

  lemma StackingScenario()
    ensures StackedRows(PrunedCorpus(ScenarioCorpus(), {"Notes"}), ScenarioTemplate()[0], 3) ==
      Success(StackedScenarioRows)
  {
    PruningScenario();
    RowsAScenario();
    RowsBScenario();
    var pruned := PrunedCorpus(ScenarioCorpus(), {"Notes"});
    var ts := ScenarioTemplate()[0];
    var rowsA := SheetRows(ActivitiesA, ts.columns, 3);
    var rowsB := SheetRows(ActivitiesB, ts.columns, 3);
    assert Lookup(pruned[0].book, ts.name) == Some(ActivitiesA);
    assert Lookup(pruned[1].book, ts.name) == Some(ActivitiesB);
    assert pruned[1..][1..] == [];
    assert StackedRows(pruned[1..][1..], ts, 3) == Success([]);
    assert pruned[1..][0] == pruned[1];
    assert StackedRows(pruned[1..], ts, 3) == Prepend(rowsB, Success([]));
    assert rowsB + [] == rowsB;
    assert StackedRows(pruned, ts, 3) == Prepend(rowsA, Success(rowsB));
    assert rowsA + rowsB == StackedScenarioRows;
  }

  /** The row without an identifier is dropped. */
  lemma IdentifiedScenario()
    ensures Filter(StackedScenarioRows, Identified(0)) ==
      [[Some("AA-1"), Some("2016-01-01")], [Some("BB-1"), Some("2016-03-01")]]
  {
    var stacked := StackedScenarioRows;
    var keep := Identified(0);
    assert keep(stacked[0]) && !keep(stacked[1]) && keep(stacked[2]);
    assert stacked[..3] == stacked;
    assert stacked[..2][..1] == stacked[..1] && stacked[..1][..0] == [];
    assert Filter(stacked[..1], keep) == [stacked[0]];
    assert Filter(stacked[..2], keep) == [stacked[0]];
  }

  /** After pruning, the consolidated table holds the identified data rows of
      both workbooks, matched by header name. */
  lemma ConsolidationScenario()
    ensures Consolidated(PrunedCorpus(ScenarioCorpus(), {"Notes"}), ScenarioTemplate(), 3) ==
      Success([NamedTable("Activity Level", Table([IdentifierColumn, Date],
        [[Some("AA-1"), Some("2016-01-01")], [Some("BB-1"), Some("2016-03-01")]]))])
  {
    var pruned := PrunedCorpus(ScenarioCorpus(), {"Notes"});
    var template := ScenarioTemplate();
    var kept := [[Some("AA-1"), Some("2016-01-01")], [Some("BB-1"), Some("2016-03-01")]];
    StackingScenario();
    IdentifiedScenario();
    DropEmptyRemovesNothing(StackedScenarioRows, 0);
    assert IdentifierIndex(template[0].columns) == 0;
    assert ConsolidateSheet(pruned, template[0], 3) == Success(Table(template[0].columns, kept));
    assert template[1..] == [];
    assert Consolidated(pruned, template[1..], 3) == Success([]);
    var table := NamedTable(template[0].name, Table(template[0].columns, kept));
    assert Consolidated(pruned, template, 3) == Prepend([table], Success([]));
    assert [table] + [] == [table];
  }
}
