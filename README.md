# workbook-assimilate: schema reconciliation and consolidation, in Dafny

`draft.py` gathers a batch of survey workbooks. The respondents filled them in
from one master template. The script then reconciles their structure and
merges them into one table per template sheet. This project models that
pipeline, with each workbook reduced to an in-memory value:

- **Data model** (`workbook.dfy`): a cell is an optional string. A sheet is a
  rectangular grid of cells whose row 0 is the header. A workbook is an
  ordered list of named sheets. The corpus is an ordered sequence of
  `(file name, workbook)` entries with distinct keys, which stands in for
  Python's insertion-ordered dict.
- **Template extraction** (`template.dfy`, `register_template`): keeps the
  sheets whose names do not start with `#`. For each kept sheet it keeps the
  header values that are not null and do not start with `#`, in order and
  with duplicates kept.
- **Diagnostics** (`diagnostics.dfy`):
  - the respondent-mapping check (`get_file_names_mapping`);
  - the non-standard sheet-name report (`get_non_standard_sheetnames`).
- **Cleaning** (`cleaning.dfy`): these stages change the workbooks in place.
  They are methods of the class `Corpus`, whose field `entries` each stage
  reassigns:
  - sheet pruning;
  - header substitution;
  - guarded column blanking.

  Each stage works book by book and sheet by sheet with loops. It is proved
  equal to a specification function, and the properties are lemmas about
  those functions.
- **Header-width report** (`cleaning.dfy`, `get_column_counts`): a method of
  `Corpus` that changes nothing. It lists each workbook's key with the header
  widths of its sheets, in corpus order.
- **Consolidation** (`consolidation.dfy`, `get_consolidated_workbook`): for
  each template sheet, every workbook's sheet of that name is read column by
  column. Columns are matched to the template by header name. The rows are
  stacked in corpus order, and rows without an `iati-identifier` are dropped.
  A nested-loop method is proved equal to a recursive specification.
- **A worked run** (`scenarios.dfy`): two small workbooks go through
  diagnostics, pruning and consolidation, and the exact outcome is proved.

Generic sequence filtering and its lemmas are in `seqs.dfy`. `Option` and
`Result` are in `wrappers.dfy`.

Modelling choices:

- A Python exception in the source is a `Failure` here:
  - The `assert` of `get_file_names_mapping` is `MappingKeysMismatch`.
  - The `IndexError` of `get_non_standard_sheetnames` on an empty corpus is
    `EmptyCorpus`.
  - The `IndexError` of `cell.value[0]` on an empty header string is
    `EmptyHeaderValue`.
  - The `KeyError` of `get_sheet_by_name` when a workbook lacks a template
    sheet is `MissingSheet`.
  - The `KeyError` on `'iati-identifier'` is `MissingIdentifierColumn`.
- When a header is repeated, the last matching column wins, as the repeated
  assignment at draft.py:188 does.
- `sheetname[0] is '#'` (draft.py:25) is read as equality with `'#'`.
- Substitution targets and declared duplicate values are cells, not strings,
  because the alteration file may hold a JSON `null` for either.

Where draft.py departs from its own docstrings and comments, the model follows
the code:

- The docstring at draft.py:170 says `data_starting_row` counts from 1. The
  slice `column[data_starting_row:]` at draft.py:188 is 0-based. The model
  follows the slice, so the default of 3 skips the header and two more rows.
- The docstring at draft.py:12-15 says `register_template` records the
  non-`#` sheet and column names. The code evaluates `cell.value[0]` at
  draft.py:29 for every present header value, so an empty string raises
  `IndexError`. The model fails with `EmptyHeaderValue`.
- The docstring at draft.py:160-168 describes consolidating every workbook's
  sheet for each template sheet. The code calls `get_sheet_by_name` at
  draft.py:182, which raises when a workbook lacks that sheet. The model fails
  with `MissingSheet`, naming the first such workbook.
- `'iati-identifier'` is read unconditionally at draft.py:193. A template
  sheet without that column raises `KeyError`. The model fails with
  `MissingIdentifierColumn`.
- The comment at draft.py:75-76 describes the sheet-name report without any
  precondition. The code indexes the first workbook at draft.py:78 and
  draft.py:82, so an empty corpus raises `IndexError`. The model fails with
  `EmptyCorpus`.
- The comment at draft.py:115 says the duplicate value is confirmed before a
  column is blanked. A `null` declared value confirms any column whose
  header is empty, so that column is blanked
  (`Cleaning.DeduplicatedNullRule`). A rule for a column beyond the sheet's
  width leaves every cell value unchanged, but reading its header widens the
  sheet. That widening is recorded under "Left out".
- The docstring at draft.py:147-149 says `get_column_counts` maps each file to
  the number of columns in its workbook. The code at draft.py:153-155 builds a
  list of header widths, one per sheet. The model follows the code.
- The comment at draft.py:192 ("clean out na values") comes before a
  `dropna(how='all')` that removes nothing once the identifier filter has run
  (`Consolidation.DropEmptyRemovesNothing`).
- The comment at draft.py:194 and the `try` at draft.py:195-198 allow for a
  table that is already in the dict. Template keys are unique, so the `append` branch at draft.py:196 is
  never taken (`Consolidation.ConsolidatedNamesDistinct`). That branch also
  names `ignore_index` without defining it.

## Model

| member | source | states |
|---|---|---|
| Workbooks.Lookup | draft.py:182 | a sheet is found iff the workbook has a sheet of that name, and what is found is the grid of the first sheet of that name |
| Template.RegisterTemplate | draft.py:23-30 | succeeds iff no kept sheet's header holds an empty string; on success, one entry per non-`#` sheet in sheet order, each being that sheet's name and filtered header; on failure, names the first offending sheet |
| Template.DataSheetsExact | draft.py:23-26 | a sheet is kept iff it is in the workbook and its name does not start with `#` |
| Template.DataSheetsOrder | draft.py:23-26 | keeping sheets distributes over concatenation, so sheet order is preserved |
| Template.HeaderColumnsAppend | draft.py:29 | the column filter distributes over concatenation of header rows, so header order is preserved |
| Template.HeaderColumnsMember | draft.py:29 | a value is a template column iff some header cell holds it and it does not start with `#` |
| Template.HeaderColumnsCount | draft.py:29 | a kept value occurs as often as in the header, so duplicates are kept; a `#` value never occurs |
| Diagnostics.GetFileNamesMapping | draft.py:57-60 | succeeds iff the mapping's keys equal the corpus's file names, returning the mapping unchanged; otherwise fails with the key-mismatch error |
| Diagnostics.MappingExtraKeyRejected | draft.py:59 | a mapping with a key that names no workbook is rejected |
| Diagnostics.MappingMissingKeyRejected | draft.py:59 | a mapping that lacks some workbook's file name is rejected |
| Diagnostics.MappingAcceptedCoversCorpus | draft.py:59-60 | an accepted mapping has an entry for every workbook and no other entries |
| Diagnostics.GetNonStandardSheetnames | draft.py:72-84 | fails iff the corpus is empty; otherwise the report lies within the union of names and is disjoint from the expected names |
| Diagnostics.UnionNamesMember | draft.py:82 | a name is in the union iff some workbook has a sheet of that name |
| Diagnostics.CommonNamesMember | draft.py:78 | a name is in the intersection iff every workbook has a sheet of that name |
| Diagnostics.NonStandardMember | draft.py:72-84 | a name is reported iff some workbook uses it and it is not expected, whether the expected names come from the list or the intersection |
| Diagnostics.NonStandardWithoutList | draft.py:77-84 | with no list, a name is reported iff some workbooks use it and some do not |
| Diagnostics.NonStandardEmptyWhenUniform | draft.py:77-84 | with no list and identical sheet-name sets, nothing is reported |
| Diagnostics.NonStandardEmptyIff | draft.py:72-84 | the report is empty iff every workbook's sheet names are all expected |
| Cleaning.RemoveSheetAfter | draft.py:95 | removing by name drops the first sheet of that name and keeps the rest in order |
| Cleaning.PruneStep | draft.py:93-95 | one loop step over the name snapshot leaves the kept prefix filtered and the suffix untouched |
| Cleaning.PruneWorkbook | draft.py:93-95 | the sheet loop with `remove_sheet` computes exactly the workbook's sheets not in the delete list |
| Cleaning.Corpus.DeleteUnwantedSheets | draft.py:86-96 | every workbook in the corpus becomes its pruned form, and corpus validity is kept |
| Cleaning.PrunedRemovesListed | draft.py:92-96 | afterwards no sheet name is in the delete list |
| Cleaning.PrunedKeepsUnlisted | draft.py:92-96 | a sheet survives, contents unchanged, iff it was there and its name is not listed |
| Cleaning.PrunedOrder | draft.py:92-96 | pruning distributes over concatenation, so the original order is kept |
| Cleaning.PrunedIdempotent | draft.py:92-96 | pruning twice equals pruning once |
| Cleaning.FilterDistinctNames | draft.py:92-96 | pruning keeps sheet names distinct |
| Cleaning.PruningNonStandardLeavesExpected | draft.py:72-96 | after the reported names are deleted, every remaining sheet name is an expected one |
| Cleaning.CorrectHeaderRow | draft.py:101-104 | each header cell whose value is a substitution key becomes the mapped value, which may be null; every other cell is unchanged |
| Cleaning.CorrectWorkbook | draft.py:100-104 | the per-sheet loop computes exactly the workbook with every header row corrected |
| Cleaning.Corpus.MakeHeadingSubstitutions | draft.py:98-105 | every workbook in the corpus becomes its corrected form, and corpus validity is kept |
| Cleaning.CorrectedCorpusCells | draft.py:99-104 | keys, sheet names and heights are kept, the header is corrected cell by cell, and every row below it is unchanged |
| Cleaning.CorrectedIdempotentWithoutChains | draft.py:102-104 | when no mapped value is itself a key, substituting twice equals substituting once |
| Cleaning.CorrectedChainedTwice | draft.py:102-104 | a substitution is applied once and not chained: with a→b and b→c, one pass gives b and a second gives c |
| Cleaning.BlankColumn | draft.py:118-119 | every cell of the given column, header included, becomes null, and nothing else changes |
| Cleaning.DeduplicateSheet | draft.py:114-119 | the loop over a sheet's rules blanks exactly the columns whose header equals the declared value |
| Cleaning.DeduplicateWorkbook | draft.py:109-119 | the loop computes exactly the workbook with every sheet named in the rules deduplicated |
| Cleaning.Corpus.CleanSuspectedHeadingDuplicates | draft.py:107-119 | every workbook in the corpus becomes its deduplicated form, and corpus validity is kept |
| Cleaning.DeduplicatedCorpusCells | draft.py:109-119 | a cell becomes null iff its sheet has rules and its column's header equals the declared value; every other cell and the names are unchanged; for rules within the sheet's width, the dimensions are unchanged too |
| Cleaning.DeduplicatedSparesMismatch | draft.py:116 | a rule whose declared value differs from the header leaves that column intact |
| Cleaning.DeduplicatedNullRule | draft.py:116-119 | a `null` declared value blanks every cell of a column whose header is empty |
| Cleaning.DeduplicatedIdempotent | draft.py:109-119 | deduplicating twice equals deduplicating once |
| Cleaning.HeaderWidths | draft.py:154-155 | the per-sheet loop lists each sheet's header width, in sheet order |
| Cleaning.Corpus.GetColumnCounts | draft.py:145-157 | one entry per workbook, in corpus order, pairing its file name with its header widths in sheet order; no file name appears twice |
| Cleaning.WidthsPreservedByCleaning | draft.py:98-119 | header substitution leaves every header width unchanged, and so does column blanking for rules within the sheet's width |
| Consolidation.LastMatch | draft.py:184-188 | the position found holds the name and no later position does; none is found iff no position holds it |
| Consolidation.IdentifierIndex | draft.py:193 | the first position of `iati-identifier` among the template columns |
| Consolidation.LastMatchStep | draft.py:184-188 | the scan over one more column replaces the match iff that column's header is the name |
| Consolidation.FrameRowsAreSheetRows | draft.py:184-188 | the column frame built after the last column yields exactly the sheet's contributed rows |
| Consolidation.ReadSheet | draft.py:180-188 | the column loop computes a sheet's contributed rows |
| Consolidation.PrependAssoc | draft.py:190 | stacking row blocks is associative, also when a later block failed |
| Consolidation.PrependEmpty | draft.py:190 | stacking an empty block changes nothing |
| Consolidation.GetConsolidatedWorkbook | draft.py:159-200 | the nested loops compute exactly the consolidation, with the same first error |
| Consolidation.SheetRowsWithoutMatch | draft.py:187-190 | a sheet with no header in the template contributes no rows |
| Consolidation.SheetRowsShape | draft.py:180-188 | a sheet with a matching header contributes one row per grid row at or after the data start, each with one cell per template column |
| Consolidation.SheetRowsCell | draft.py:184-188 | each cell comes from the last column headed with that template column's name, at the same row; it is null when no column has that header |
| Consolidation.StackedRowsOutcome | draft.py:178-190 | stacking succeeds iff every workbook has the template sheet; otherwise it fails naming the first workbook that lacks it |
| Consolidation.StackedRowsAppend | draft.py:178-190 | rows are stacked in corpus order, so stacking over a concatenation is the first part's rows followed by the second's |
| Consolidation.StackedRowsSingle | draft.py:178-190 | one workbook contributes exactly its sheet's rows |
| Consolidation.StackedRowsWidth | draft.py:180-190 | every stacked row has one cell per template column |
| Consolidation.DropEmptyRemovesNothing | draft.py:193 | after the identifier filter, `dropna(how='all')` removes nothing |
| Consolidation.ConsolidateSheetOutcome | draft.py:174-193 | a template sheet consolidates iff every workbook has it and its columns include `iati-identifier`; the table has the template's columns and the stacked rows that carry an identifier |
| Consolidation.ConsolidateSheetRowsIdentified | draft.py:193 | no consolidated row lacks its identifier, and every row has one cell per column |
| Consolidation.ConsolidatedOutcome | draft.py:174-200 | succeeds iff every template sheet consolidates |
| Consolidation.ConsolidatedTables | draft.py:174-200 | a successful result has one table per template sheet, in template order, each bearing that sheet's name and holding that sheet's consolidation |
| Consolidation.ConsolidatedSucceeds | draft.py:174-200 | succeeds iff every workbook has every template sheet and every template sheet has an `iati-identifier` column |
| Consolidation.ConsolidatedShape | draft.py:174-200 | each table bears its template sheet's name and column list; its rows all have an identifier and one cell per column |
| Consolidation.ConsolidatedNamesDistinct | draft.py:195-198 | with distinct template sheet names, no two tables share a name, so the `append` branch of the `try` is never taken |
| Scenarios.DiagnosticsScenario | draft.py:72-84 | for two workbooks where only the second has an extra `Notes` sheet, the report with reference list `["Activity Level"]` is exactly `{"Notes"}` |
| Scenarios.PruningScenario | draft.py:92-95 | deleting `Notes` leaves each workbook with only its `Activity Level` sheet |
| Scenarios.RowsAScenario | draft.py:184-188 | with headers in template order, the rows from 0-based row 3 are read through unchanged |
| Scenarios.RowsBScenario | draft.py:184-188 | with headers in swapped order, the cells are still placed by template column name |
| Scenarios.StackingScenario | draft.py:178-190 | the two workbooks' rows are stacked in corpus order |
| Scenarios.IdentifiedScenario | draft.py:193 | the row without an identifier is dropped |
| Scenarios.ConsolidationScenario | draft.py:174-200 | the whole consolidation of the pruned corpus is one `Activity Level` table holding the two identified rows |

## Left out

- Workbook loading, directory listing and saving: `load_workbook`, `create_wb_dict`, `os.listdir` and `save_wb_dict` (draft.py:19, 37-47, 133-143) are file I/O. The model works on workbook values instead.
- JSON reading and writing (draft.py:32-33, 57, 66) is serialisation. The template, mapping and alteration dictionaries are taken as already-decoded maps. `get_alterations` (draft.py:62-66) only reads such a file.
- `pandas_dict_to_excel` (draft.py:202-206) is export I/O.
- The `print` notices (draft.py:105, 117) are observability only.
- The script and drafting section (draft.py:208 onward) is one-off glue, not part of the pipeline.
- A missing `'substitutions'`, `'columns'` or `'column_deduplications'` section in the alteration dictionary raises `KeyError` in the source. The model receives those sections directly as maps.
- Cells hold optional strings only. Numbers, dates and formulas are not modelled. The `TypeError` that a non-string template header would raise at draft.py:29 is left out for the same reason.
- Column letters in the deduplication rules are 0-based column indices. The letter-to-index decoding is openpyxl's.
- Cleaning.WidthsPreservedByCleaning, Cleaning.DeduplicatedCorpusCells, Cleaning.DeduplicatedBook: in the model, a rule for a column beyond the sheet's width does nothing. In openpyxl, reading that header cell at draft.py:116 creates it, which widens the sheet. The new header is null. A string rule does not match it. A `null` rule does match, and the new column's cells are then set to null. Either way no cell value changes. The header width that `get_column_counts` reports (draft.py:155) does grow, and the model does not capture that widening.
- An empty worksheet is the grid `[[None]]`, because openpyxl reports it as the single empty cell `A1`. The model then gives width 1, a header `[None]`, no template columns and no match in consolidation, as draft.py does. The `Grid` type also admits the grid with no rows, which no openpyxl sheet produces.
- pandas details are left out:
  - DataFrame index labels and `ignore_index`;
  - NaN versus `None`;
  - column dtypes;
  - a template column list that names the same column twice, which pandas would turn into a duplicate-labelled frame.

  A table is its column list and a sequence of rows of optional cells.
- The value `delete_unwanted_sheets` returns is the same dict it mutated. `Corpus.DeleteUnwantedSheets` changes the corpus and returns nothing.
- Workbooks are values, so the aliasing of openpyxl objects between the caller's dict and the function is not modelled.
- Consolidation.GetConsolidatedWorkbook: `dataStartingRow` is a natural number. A negative `data_starting_row` would make the Python slice at draft.py:188 count from the end of each column. The docstring at draft.py:167-170 treats the argument as a row number, so that case is not modelled.
