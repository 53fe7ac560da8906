# make_macs2_xls, modelled in Dafny

`ChIP-seq/make_macs2_xls.py` turns the tab-separated peak list written by
the MACS2 peak caller into a spreadsheet. The script's main block:

- checks that it got one or two arguments and picks the output file name;
- splits the input into header lines (starting with `#` or blank) and data
  lines;
- reads the MACS version from the header;
- sets the column-label line aside;
- sorts the peaks, first by fold enrichment and then by `-log10(pvalue)`,
  both descending, then puts the label line back;
- numbers the rows in a new `order` column and puts that column first;
- writes the table to a data sheet;
- inserts six formula columns: two copies of `chr`, `abs_summit-100`,
  `abs_summit+100`, `summit-1` and `summit`.

The model keeps that chain of steps. An input line is a `seq<char>`, and
each `char` stands for one byte of the script's Python 2 byte string. Every
character the script tests is ASCII, so the 30-character cut of the sheet
name counts bytes, as the script does. A peak is a record with integer sort
keys. Where the script changes things in place,
the model does too:

- the table (the script's `TabFile`) is the class `Table.PeakTable`, with
  `Delete`, `Insert`, `Sort`, `AppendOrderColumn` and `SetOrder`;
- the data sheet is the class `Sheet.DataSheet`, with `AddRows` and
  `InsertColumn`.

Each method's contract states the new state. The loops are methods with
invariants:

- the line split, `Lines.SplitLines`;
- the version search with its `break`, `Lines.DetectVersion`;
- the numbering loop, `Pipeline.NumberRows`.

Each of these is proved equal to a specification function. `Pipeline.Run`
performs the whole main block step by step and is proved equal to the
function `Pipeline.Convert`. The lemmas in `Results` then state what
`Convert` produces:

- the error cases;
- the names;
- every row of the data sheet, computed columns included;
- the sort order of the rows.

The centre of the model is `Sorting`. The script calls `data.sort(sort_func,
reverse=True)` on a `TabFile`, whose code is not part of this model. The
model assumes that this is a stable sort, descending by `sort_func`, as
Python's `sorted(key=…, reverse=True)` is. It defines one such pass as an
insertion sort (`SortBy`), and `SortByStable` proves that one pass keeps
peaks with equal keys in their input order.
`TwoPassIsCombinedSort` proves that the script's two passes equal one sort
on the pair (pvalue descending, fold enrichment descending), `SortByBoth`.
`TwoPassSortCorrect` then gives:

- the result is a permutation of the input;
- the result is ordered by that pair;
- peaks equal on both keys keep their input order.

`TwoPassIdempotent` adds that sorting the sorted peaks again changes nothing.

Files:

| file | module | contents |
|---|---|---|
| `wrappers.dfy` | `Wrappers` | `Option`, `Result` |
| `lines.dfy` | `Lines` | `str.strip`, the header/data split, `str.split()` on whitespace, version detection |
| `naming.dfy` | `Naming` | `os.path.basename`, `os.path.splitext`, the output name, the sheet name |
| `sorting.dfy` | `Sorting` | the peak record, the stable sorts, the two-pass theorem and stability |
| `table.dfy` | `Table` | cells, rows, tab fields, the `order` column, the column reorder, `PeakTable` |
| `sheet.dfy` | `Sheet` | formulas, column insertion, formula evaluation, `DataSheet` |
| `pipeline.dfy` | `Pipeline` | the conversion as a function (`Convert`) and as a method (`Run`) |
| `results.dfy` | `Results` | properties of `Convert` as a whole |

A formula is kept as a symbol: `CopyOf(column)` for `=B?` and `=L?`, and
`OffsetOf(column, delta)` for `=L?-100`. It is evaluated against its own row
of the finished sheet, after all six insertions. This is why `=L?` reads
`abs_summit`: that column has moved to L, 0-based index 11, by then.

## Model

| member | source | states |
|---|---|---|
| Lines.IsHeader | ChIP-seq/make_macs2_xls.py:99 | a line is a header line when it starts with `#` or strips to the empty line; `SplitOne` puts exactly these lines into the header list |
| Lines.Strip | ChIP-seq/make_macs2_xls.py:99-104 | the stripped line has no leading or trailing whitespace, and it is empty exactly when the line is all whitespace |
| Lines.StripSlice | ChIP-seq/make_macs2_xls.py:99-104 | stripping only cuts whitespace off the two ends: the result is a contiguous slice of the line |
| Lines.SplitLines | ChIP-seq/make_macs2_xls.py:98-104 | the loop puts each line into the header list (starts with `#` or strips to empty) or the data list, stripped and in input order |
| Lines.HeaderLines | ChIP-seq/make_macs2_xls.py:98-101 | the header list the loop builds, defined line by line; `SplitLines`, `SplitCount`, `HeaderLinesAppend` and `SplitStripped` fix its members, order and stripping |
| Lines.DataLines | ChIP-seq/make_macs2_xls.py:102-104 | the data list the loop builds, defined line by line; `SplitLines`, `SplitCount`, `DataLinesAppend` and `SplitStripped` fix its members, order and stripping |
| Lines.SplitCount | ChIP-seq/make_macs2_xls.py:98-104 | every input line ends up in exactly one of the two lists: their lengths add up to the number of lines |
| Lines.HeaderLinesAppend | ChIP-seq/make_macs2_xls.py:98-101 | the header list keeps input order: splitting a concatenation concatenates the header lists |
| Lines.DataLinesAppend | ChIP-seq/make_macs2_xls.py:102-104 | the data list keeps input order: splitting a concatenation concatenates the data lists |
| Lines.SplitOne | ChIP-seq/make_macs2_xls.py:99-104 | a single line goes, stripped, to the header list when it is a header line, and to the data list otherwise |
| Lines.SplitStripped | ChIP-seq/make_macs2_xls.py:101-104 | every stored header line is stripped; every data line is stripped and not empty |
| Lines.Words | ChIP-seq/make_macs2_xls.py:115 | `split()` with no argument, defined field by field; `WordsAreWords`, `WordsCons` and `WordsSpaced` state what its fields are |
| Lines.Word | ChIP-seq/make_macs2_xls.py:115 | a field of `split()` is a prefix of the text with no whitespace in it, ending at whitespace or at the end |
| Lines.WordsAreWords | ChIP-seq/make_macs2_xls.py:115 | every field of `split()` is non-empty and has no whitespace |
| Lines.WordsCons | ChIP-seq/make_macs2_xls.py:115 | splitting a word, a space and a rest gives the word followed by the rest's fields |
| Lines.WordsSpaced | ChIP-seq/make_macs2_xls.py:115 | words written out each followed by one space split back into exactly those words, followed by the fields of whatever comes after them |
| Lines.VersionPrefixText | ChIP-seq/make_macs2_xls.py:114 | the prefix built from the eight fields is the literal `# This file is generated by MACS version `, trailing space included |
| Lines.PrefixWords | ChIP-seq/make_macs2_xls.py:114-115 | the version prefix splits into the eight fields `#`, `This`, …, `version`, followed by the fields of what comes after it |
| Lines.VersionField | ChIP-seq/make_macs2_xls.py:114-115 | a stripped line with the version prefix always has a field 8, and it is the first field after the prefix |
| Lines.WordAfterSpace | ChIP-seq/make_macs2_xls.py:114-115 | in a stripped header line a space is never the last character, so another field follows it |
| Lines.FindVersion | ChIP-seq/make_macs2_xls.py:112-119 | there is no version exactly when no header line starts with the prefix; otherwise the version is field 8 of the first line that does, and it is one whitespace-free word |
| Lines.DetectVersion | ChIP-seq/make_macs2_xls.py:112-116 | the loop that stops at the first matching line returns what `FindVersion` specifies |
| Naming.Basename | ChIP-seq/make_macs2_xls.py:88 | the basename is the part of the path after its last `/`: a suffix with no `/`, preceded by a `/` unless it is the whole path |
| Naming.BasenameOfJoin | ChIP-seq/make_macs2_xls.py:88 | the basename of `dir + "/" + name` is `name`, for a name without `/` |
| Naming.BasenameOfName | ChIP-seq/make_macs2_xls.py:88 | a name without `/` is its own basename |
| Naming.LastIndex | ChIP-seq/make_macs2_xls.py:88 | the position of the last occurrence of a character, or -1 when there is none |
| Naming.ExtensionStart | ChIP-seq/make_macs2_xls.py:88 | the extension starts at the last `.` of the basename, unless only dots come before that `.` in the basename, and otherwise there is none; whenever the basename has a dot with a non-dot character before it, an extension is found |
| Naming.NoExtension | ChIP-seq/make_macs2_xls.py:88 | when the last dot of a path has only dots before it in its last component, so does every dot of that component |
| Naming.SplitextRoot | ChIP-seq/make_macs2_xls.py:88 | `splitext(path)[0]` is a prefix of the path; when it is shorter, what it leaves off starts with a `.` and contains no `/` |
| Naming.RootOfExtension | ChIP-seq/make_macs2_xls.py:88 | `splitext` drops `"." + ext` from `stem + "." + ext` when the stem is not all dots |
| Naming.RootWithoutDot | ChIP-seq/make_macs2_xls.py:88 | a name without a dot has no extension |
| Naming.RootOfDotfile | ChIP-seq/make_macs2_xls.py:88 | leading dots do not start an extension (`.bashrc` stays `.bashrc`) |
| Naming.DefaultOutputName | ChIP-seq/make_macs2_xls.py:88 | the default output name, `"XLS_" + splitext(basename(input))[0] + ".xls"`; `DefaultOutputNameOf` and `DefaultOutputNameExample` evaluate it |
| Naming.OutputName | ChIP-seq/make_macs2_xls.py:77-88 | fails exactly when there are not one or two arguments; with two arguments it is the second one verbatim; with one it is `"XLS_" + splitext(basename(input))[0] + ".xls"` |
| Naming.DefaultOutputNameOf | ChIP-seq/make_macs2_xls.py:88 | the default name of `dir/stem.ext` is `XLS_stem.xls` |
| Naming.DefaultOutputNameExample | ChIP-seq/make_macs2_xls.py:86-88 | `peaks.xls` gives `XLS_peaks.xls` |
| Naming.SheetName | ChIP-seq/make_macs2_xls.py:163 | the data sheet's name is a prefix of the input's basename, of length `min(30, len(basename))` |
| Sorting.InsertByPermutes | ChIP-seq/make_macs2_xls.py:124-125 | insertion into a sorted list adds exactly the new peak |
| Sorting.InsertBySorted | ChIP-seq/make_macs2_xls.py:124-125 | insertion into a list sorted descending by one key keeps it sorted |
| Sorting.SortBy | ChIP-seq/make_macs2_xls.py:124-125 | one sort pass returns a permutation of its input, non-increasing in the chosen key; `SortByStable` adds that it is stable |
| Sorting.WithKeyInsert | ChIP-seq/make_macs2_xls.py:124-125 | inserting by one key puts the new peak in front of the peaks with the same key and keeps the order of every group of equal keys |
| Sorting.SortByStable | ChIP-seq/make_macs2_xls.py:124-125 | one sort pass is stable: for every key value, the peaks with that value come out in their input order |
| Sorting.InsertByBothPermutes | ChIP-seq/make_macs2_xls.py:124-125 | insertion by the pair (pvalue, fold enrichment) adds exactly the new peak |
| Sorting.InsertByBothSorted | ChIP-seq/make_macs2_xls.py:124-125 | insertion by the pair keeps a list sorted by the pair |
| Sorting.SortByBoth | ChIP-seq/make_macs2_xls.py:124-125 | the one-pass sort on the pair returns a permutation of its input, ordered by pvalue and then fold enrichment, both descending |
| Sorting.TwoPassSort | ChIP-seq/make_macs2_xls.py:124-125 | the script's two passes, fold enrichment first, then pvalue; `TwoPassIsCombinedSort`, `TwoPassSortCorrect` and `TwoPassIdempotent` state what it computes |
| Sorting.InsertLowerEnrichment | ChIP-seq/make_macs2_xls.py:124-125 | a peak whose fold enrichment is at least that of every peak in the list is inserted by the pair exactly where the pvalue pass would insert it |
| Sorting.InsertionsCommute | ChIP-seq/make_macs2_xls.py:124-125 | inserting a by pvalue and x by the pair commute when a has the larger fold enrichment |
| Sorting.SortAfterInsert | ChIP-seq/make_macs2_xls.py:124-125 | inserting a peak by fold enrichment into a list sorted by fold enrichment and then sorting by pvalue gives the pvalue sort of the list with the peak inserted by the pair |
| Sorting.TwoPassIsCombinedSort | ChIP-seq/make_macs2_xls.py:124-125 | sorting by fold enrichment and then, stably, by pvalue gives exactly the one sort on (pvalue desc, fold enrichment desc) |
| Sorting.WithKeysInsert | ChIP-seq/make_macs2_xls.py:124-125 | inserting a peak by the pair keeps the peaks with any given keys in their order, with the new peak in front of those equal to it |
| Sorting.SortByBothStable | ChIP-seq/make_macs2_xls.py:124-125 | the sort on the pair keeps the input order of peaks that are equal on both keys |
| Sorting.TwoPassSortCorrect | ChIP-seq/make_macs2_xls.py:124-125 | after the two passes the peaks are a permutation of the input, non-increasing in pvalue, non-increasing in fold enrichment among equal pvalues, and in input order among peaks equal on both |
| Sorting.SortByBothOfSorted | ChIP-seq/make_macs2_xls.py:124-125 | a list already in (pvalue desc, fold enrichment desc) order is left as it is by the sort on the pair |
| Sorting.TwoPassIdempotent | ChIP-seq/make_macs2_xls.py:124-125 | sorting the sorted peaks again with the two passes gives the same list |
| Sorting.TieBreakExample | ChIP-seq/make_macs2_xls.py:124-125 | two peaks with the same pvalue come out with the larger fold enrichment first |
| Table.TabFields | ChIP-seq/make_macs2_xls.py:104 | splitting a line on tabs gives at least one field, and no field contains a tab |
| Table.JoinTabFields | ChIP-seq/make_macs2_xls.py:104-108 | splitting a line on tabs loses nothing: joining the fields with tabs gives the line back |
| Table.ColumnPosition | ChIP-seq/make_macs2_xls.py:95-96 | a column name is found at its position in the table's declared column list, and -1 is returned exactly for a name not in that list |
| Table.Reorder | ChIP-seq/make_macs2_xls.py:137-138 | the reordered row has one cell per requested column |
| Table.ReorderKeepsValues | ChIP-seq/make_macs2_xls.py:137-138 | reordering moves each value with its column name and changes none |
| Table.PeakLayout | ChIP-seq/make_macs2_xls.py:131-138 | a peak row in the new column order is its order value, then chr, start, end, length, abs_summit, pileup, pvalue, fold enrichment, qvalue |
| Table.LabelLayout | ChIP-seq/make_macs2_xls.py:128-138 | the label row in the new column order is its order value followed by its own tab fields in input order |
| Table.OrderColumn | ChIP-seq/make_macs2_xls.py:131-135 | the `order` column holds `#order` on row 0 and `i` on every row `i >= 1` |
| Table.Peaks | ChIP-seq/make_macs2_xls.py:124-125 | the peaks of a list of peak rows, element by element |
| Table.PeakRows | ChIP-seq/make_macs2_xls.py:104 | one peak row per peak, element by element |
| Table.PeakTable.constructor | ChIP-seq/make_macs2_xls.py:95-104 | `TabFile(column_names=…)` filled by the reading loop: the table holds the given rows and has no `order` column yet |
| Table.PeakTable.Delete | ChIP-seq/make_macs2_xls.py:109 | `del data[i]` removes row i, keeping the other rows in order |
| Table.PeakTable.Insert | ChIP-seq/make_macs2_xls.py:128 | `data.insert(i, row)` puts the row at position i, with the rows from i on shifted down by one |
| Table.PeakTable.Sort | ChIP-seq/make_macs2_xls.py:124-125 | an in-place pass replaces the peak rows with their stable descending sort by one key |
| Table.PeakTable.AppendOrderColumn | ChIP-seq/make_macs2_xls.py:131 | appending the `order` column gives every row an empty order value and leaves the rows unchanged |
| Table.PeakTable.SetOrder | ChIP-seq/make_macs2_xls.py:133-135 | assigning `data[i]['order']` changes that one row's order value and nothing else |
| Table.PeakTable.Reordered | ChIP-seq/make_macs2_xls.py:137-138 | the reordered table has each row's values in the given column order, with the row's own order value |
| Sheet.EvalEntry | ChIP-seq/make_macs2_xls.py:181-196 | what a cell shows: a plain value itself; `=B?` and `=L?` the value of that column in the same row; `=L?±d` that number plus d, and an empty cell when it refers to a missing column, a formula, or (for an offset) a non-number; `DerivedDataRow` states the values the six formulas show |
| Sheet.EvalRow | ChIP-seq/make_macs2_xls.py:181-196 | a finished row shows one value per entry |
| Sheet.InsertAt | ChIP-seq/make_macs2_xls.py:181-196 | inserting at column k puts the new entry at k; the columns before k are unchanged, and a short row is padded with empty cells; the columns from k on move one to the right |
| Sheet.InsertColumnGrid | ChIP-seq/make_macs2_xls.py:181-196 | `insertColumn(k, title, items)` puts the title at column k of the first row and the formula at column k of every other row |
| Sheet.InsertDerived | ChIP-seq/make_macs2_xls.py:181-196 | the six insertions applied to one row, the title row or a formula row; `DerivedLayout`, `DerivedDataRow` and `DerivedTitleRow` state where each lands and what it shows |
| Sheet.WithDerivedColumns | ChIP-seq/make_macs2_xls.py:181-196 | the six `insertColumn` calls on the whole sheet, in the script's order; `DerivedByRow` reduces them to `InsertDerived` on each row |
| Sheet.DerivedByRow | ChIP-seq/make_macs2_xls.py:181-196 | the six sheet-wide insertions act on each row on its own |
| Sheet.DerivedLayout | ChIP-seq/make_macs2_xls.py:181-196 | in a ten-column row the six insertions land at columns 4..9, and the row's own columns 4..9 follow them |
| Sheet.DerivedDataRow | ChIP-seq/make_macs2_xls.py:181-196 | a data row shows, at columns 4..9, its own chr, `abs_summit-100`, `abs_summit+100`, chr, `abs_summit-1` and `abs_summit`, read from its column L |
| Sheet.DerivedTitleRow | ChIP-seq/make_macs2_xls.py:181-196 | the first row shows the six titles at columns 4..9 |
| Sheet.DataSheet.constructor | ChIP-seq/make_macs2_xls.py:163 | `wb.addSheet(name)`: a new data sheet with the given name and no rows |
| Sheet.DataSheet.AddRows | ChIP-seq/make_macs2_xls.py:176 | `addText` appends the table's rows to the sheet as plain values |
| Sheet.DataSheet.InsertColumn | ChIP-seq/make_macs2_xls.py:181-196 | each `insertColumn` call applies the column insertion to the sheet |
| Pipeline.Convert | ChIP-seq/make_macs2_xls.py:77-196 | the main block as one function: the argument error, the missing-version error, or the output name, sheet name, version, notes and data sheet; `Run` computes it and the `Results` lemmas state what it holds |
| Pipeline.DataSheetValues | ChIP-seq/make_macs2_xls.py:176-196 | the data sheet after `addText` and the six `insertColumn` calls, evaluated; `SheetRowOfTableRow` and `SheetRow` state every row of it |
| Pipeline.ExitStatus | ChIP-seq/make_macs2_xls.py:77-119 | every fatal error exits with a non-zero status: 2 for the argument error, 1 for the missing version |
| Pipeline.InputPeaks | ChIP-seq/make_macs2_xls.py:104-109 | the peaks are the data lines after the label line, each one read by the table's parser |
| Pipeline.ParsedRows | ChIP-seq/make_macs2_xls.py:104-109 | the table as read has the label line as row 0 and one peak row per later data line |
| Pipeline.SortedRows | ChIP-seq/make_macs2_xls.py:108-128 | the table as `Convert` sees it after sorting: the label row set aside, the peaks put through the two passes, the label row put back on top; `FinishTable` proves the in-place steps reach it and `ConvertRows` states the sheet built from it |
| Pipeline.SheetCells | ChIP-seq/make_macs2_xls.py:131-176 | the data sheet receives one row per table row |
| Pipeline.NumberRows | ChIP-seq/make_macs2_xls.py:133-135 | the numbering loop leaves the rows as they are and fills the order column with `#order`, 1, 2, … |
| Pipeline.SortPeaks | ChIP-seq/make_macs2_xls.py:124-125 | the two in-place passes leave the table holding the two-pass sort of its peaks |
| Pipeline.OrderedCells | ChIP-seq/make_macs2_xls.py:131-138 | adding and numbering the order column and then reordering give the numbered rows in the new column order; the table keeps its rows and ends with the order column `#order`, 1, 2, … |
| Pipeline.BuildSheet | ChIP-seq/make_macs2_xls.py:163-196 | the data sheet gets its name and the table's rows, then the six formula columns |
| Pipeline.ReadTable | ChIP-seq/make_macs2_xls.py:104-109 | after the label line is set aside, the table holds exactly the peaks of the later data lines |
| Pipeline.FinishTable | ChIP-seq/make_macs2_xls.py:124-138 | the label line goes back on top of the sorted peaks, and the result is numbered and reordered; the table ends holding exactly those rows and that order column |
| Pipeline.Run | ChIP-seq/make_macs2_xls.py:77-196 | the main block, step by step, computes exactly `Convert`: the same error, or the same names, notes and sheet |
| Results.TitleRowOf | ChIP-seq/make_macs2_xls.py:128-196 | the label row ends up as `#order`, its first three fields, the six titles, then its remaining six fields |
| Results.DataRowOf | ChIP-seq/make_macs2_xls.py:131-196 | a peak row numbered i ends up as i, chr, start, end, chr, abs±100, chr, abs-1, abs, length, abs_summit, pileup, pvalue, fold enrichment, qvalue |
| Results.SheetRow | ChIP-seq/make_macs2_xls.py:128-196 | row 0 of the data sheet is the title row and row i is the data row of the i-th peak |
| Results.SheetRows | ChIP-seq/make_macs2_xls.py:128-196 | the data sheet has one row more than there are peaks, the title row first, then row i for the i-th peak |
| Results.ConvertRejectsArguments | ChIP-seq/make_macs2_xls.py:77-78 | with fewer than one or more than two arguments the run fails with the argument error, exit status 2 |
| Results.ConvertVersion | ChIP-seq/make_macs2_xls.py:112-119 | with the right arguments the run fails (exit status 1) exactly when no header line starts with the MACS version prefix; otherwise the version reported is field 8 of the first such line |
| Results.ConvertNames | ChIP-seq/make_macs2_xls.py:83-168 | a successful run names the output file after the second argument or after the input, names the data sheet after the input's basename, and keeps the stripped header lines as notes |
| Results.ConvertRows | ChIP-seq/make_macs2_xls.py:107-196 | the data sheet has as many rows as there are data lines: the label row on top, then row i holding i and the i-th peak of the two-pass sort, with its six computed columns; the sorted peaks are a permutation of the input peaks |
| Results.RowsSorted | ChIP-seq/make_macs2_xls.py:124-125 | rows built from peaks in pvalue and fold-enrichment order keep that order in their pvalue and fold-enrichment columns |
| Results.ConvertSorted | ChIP-seq/make_macs2_xls.py:124-125 | in the finished sheet the rows after the title are non-increasing in pvalue, and non-increasing in fold enrichment among equal pvalues |
| Results.DerivedCells | ChIP-seq/make_macs2_xls.py:181-196 | for every peak and row number, the evaluated computed columns 4..9 are its chr, `abs_summit-100`, `abs_summit+100`, chr, `abs_summit-1` and `abs_summit` |
| Results.DerivedExample | ChIP-seq/make_macs2_xls.py:184-196 | a peak with its summit at 150, run through the column reorder, the six insertions and their evaluation, shows chr1, 50, 250, chr1, 149 and 150 in the computed columns |

## Left out

- Reading the input file, the `print` and `logging` output, and writing the workbook (`wb.save`) are I/O. The model takes the file's lines as a sequence and returns a `Report`: the names and sheets the script saves, plus the detected version, which the script only prints.
- optparse's parsing, `--help` and `--version` are left out. Only the argument-count check and its exit remain. `p.error` exits with status 2, and the model gives that status.
- `TabFile` is not part of this model. The function parameter `parse` turns a data line into a peak record. The label line keeps its text, and its cells are its tab-separated fields.
- `Spreadsheet` is not part of this model. The sheet is a list of rows, and `insertColumn` inserts into each row. The model assumes the title goes in the sheet's first row and the formula in every other row.
- `Sheet.InsertAt`: inserting past the end of a row pads the row with empty cells. This is an assumption about `Spreadsheet`, whose code is not part of this model. It never applies here, because every row has ten cells when the six columns go in.
- Every numeric column of a peak (start, end, length, abs_summit, pileup, -log10(pvalue), fold enrichment, -log10(qvalue)) is an integer, though MACS writes pileup and the score columns as floats. Float comparison and NaN are not modelled. Only the sort keys and abs_summit are computed with; the other columns are copied through unchanged.
- `Sorting.SortBy`: `data.sort` is `TabFile.sort(sort_func, reverse=True)`, whose code is not part of this model. The model assumes it is a stable sort, descending by `sort_func`, as `sorted(key=…, reverse=True)` is, and replaces it by a stable insertion sort. The two-pass results rest on this assumption. The sorting algorithm and its cost are not modelled.
- Formulas are evaluated values, not formula text. A copy (`=B?`, `=L?`) shows the value it refers to. An offset (`=L?±d`) of an empty or text cell, and any formula that refers to a missing column or another formula, shows an empty cell.
- The notes and legends sheets' static text and the bold styling are not modelled. Only the header lines that go to the notes sheet are kept.
- An input with no data line would fail at `data[0]` in the script. The model requires at least one data line when the argument count is valid.
- `Table.PeakTable.Delete`, `Table.PeakTable.Insert`, `Table.PeakTable.Sort`: these are defined only before the `order` column exists, since the script calls them only then.
- `Pipeline.Run` takes the parser and the lines as parameters, so file-system errors and parse failures are not modelled.
