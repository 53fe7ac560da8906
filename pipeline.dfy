/** The whole conversion: arguments and input lines in, the data sheet,
    the notes and the output name out, or the fatal error the script
    exits with. */
module Pipeline {
  import opened Wrappers
  import opened Lines
  import opened Naming
  import opened Sorting
  import opened Table
  import opened Sheet

  datatype Error = WrongArgumentCount | NoMacsVersion

  /** The process exit status of each fatal error: optparse's error()
      exits with 2, the missing version with sys.exit(1). */
  function ExitStatus(e: Error): (status: int)
    ensures status != 0
  {
    match e
    case WrongArgumentCount => 2
    case NoMacsVersion => 1
  }

  /** What the script would save: the output file name, the data sheet's
      name and values, the detected version and the header lines that go
      to the notes sheet. */
  datatype Report = Report(
    outputName: Line,
    dataSheetName: Line,
    version: Line,
    notes: seq<Line>,
    data: seq<seq<Cell>>)

  /** The peaks of the data lines after the column-label line, each read by
      the table's line parser. */
  function InputPeaks(data: seq<Line>, parse: Line -> Peak): (ps: seq<Peak>)
    requires |data| >= 1
    ensures |ps| == |data| - 1 && forall i :: 0 <= i < |ps| ==> ps[i] == parse(data[i + 1])
  {
    seq(|data| - 1, i requires 0 <= i < |data| - 1 => parse(data[i + 1]))
  }

  /** The table as read: the label row, then one peak row per data line. */
  function ParsedRows(data: seq<Line>, parse: Line -> Peak): (rows: seq<Row>)
    requires |data| >= 1
    ensures |rows| == |data| && rows[0] == LabelRow(data[0])
    ensures rows[1..] == PeakRows(InputPeaks(data, parse))
  {
    [LabelRow(data[0])] + PeakRows(InputPeaks(data, parse))
  }

  /** The table after sorting: the label row back in front of the sorted peaks. */
  function SortedRows(data: seq<Line>, parse: Line -> Peak): seq<Row>
    requires |data| >= 1
  {
    [LabelRow(data[0])] + PeakRows(TwoPassSort(InputPeaks(data, parse)))
  }

  /** The cells written to the data sheet: each row with its order value,
      in the data-sheet column order. */
  function SheetCells(rows: seq<Row>): (cells: seq<seq<Cell>>)
    requires |rows| >= 1
    ensures |cells| == |rows|
  {
    seq(|rows|, i requires 0 <= i < |rows| => Reorder(OutputColumns, rows[i], OrderColumn(|rows|)[i]))
  }

  /** The values the finished data sheet shows for the table's cells. */
  function DataSheetValues(cells: seq<seq<Cell>>): seq<seq<Cell>> {
    Evaluate(WithDerivedColumns(ValueGrid(cells)))
  }

  /** The conversion as a whole. */
  function Convert(args: seq<Line>, lines: seq<Line>, parse: Line -> Peak): Result<Report, Error>
    requires 1 <= |args| <= 2 ==> |DataLines(lines)| >= 1
  {
    match OutputName(args)
    case None => Failure(WrongArgumentCount)
    case Some(out) =>
      var header := HeaderLines(lines);
      var data := DataLines(lines);
      SplitStripped(lines);
      match FindVersion(header)
      case None => Failure(NoMacsVersion)
      case Some(version) =>
        Success(Report(out, SheetName(args[0]), version, header,
                       DataSheetValues(SheetCells(SortedRows(data, parse)))))
  }

  /** The loop numbering the rows: "#order" on the label row, then i on row i. */
  method NumberRows(table: PeakTable)
    requires table.Valid() && table.hasOrder && |table.rows| >= 1
    modifies table
    ensures table.Valid() && table.hasOrder && table.rows == old(table.rows)
    ensures table.order == OrderColumn(|table.rows|)
  {
    table.SetOrder(0, Text("#order"));
    for i := 1 to |table.rows|
      invariant table.Valid() && table.hasOrder && table.rows == old(table.rows)
      invariant table.order[0] == Text("#order")
      invariant forall j :: 1 <= j < i ==> table.order[j] == Int(j)
    {
      table.SetOrder(i, Int(i));
    }
    assert table.order == OrderColumn(|table.rows|);
  }

  /** The two in-place sorts, fold enrichment first, then pvalue. */
  method SortPeaks(table: PeakTable, ghost peaks: seq<Peak>)
    requires table.Valid() && !table.hasOrder && table.rows == PeakRows(peaks)
    modifies table
    ensures table.Valid() && !table.hasOrder && table.rows == PeakRows(TwoPassSort(peaks))
  {
    assert Peaks(table.rows) == peaks;
    table.Sort(FoldEnrichment);
    assert Peaks(table.rows) == SortBy(FoldEnrichment, peaks);
    table.Sort(PValue);
  }

  /** The order column and the column reorder. */
  method OrderedCells(table: PeakTable) returns (cells: seq<seq<Cell>>)
    requires table.Valid() && !table.hasOrder && |table.rows| >= 1
    modifies table
    ensures cells == SheetCells(old(table.rows))
    ensures table.Valid() && table.hasOrder && table.rows == old(table.rows)
    ensures table.order == OrderColumn(|table.rows|)
  {
    table.AppendOrderColumn();
    NumberRows(table);
    cells := table.Reordered(OutputColumns);
  }

  /** The data sheet: the table's cells, then the six formula columns. */
  method BuildSheet(name: Line, cells: seq<seq<Cell>>) returns (sheet: DataSheet)
    ensures sheet.name == name && Evaluate(sheet.grid) == DataSheetValues(cells)
  {
    sheet := new DataSheet(name);
    sheet.AddRows(cells);
    assert sheet.grid == ValueGrid(cells);
    sheet.InsertColumn(4, "chr", CopyOf(ColumnB));
    sheet.InsertColumn(5, "abs_summit-100", OffsetOf(ColumnL, -100));
    sheet.InsertColumn(6, "abs_summit+100", OffsetOf(ColumnL, 100));
    sheet.InsertColumn(7, "chr", CopyOf(ColumnB));
    sheet.InsertColumn(8, "summit-1", OffsetOf(ColumnL, -1));
    sheet.InsertColumn(9, "summit", CopyOf(ColumnL));
  }

  /** Reading the table and setting its first row, the column labels, aside. */
  method ReadTable(data: seq<Line>, parse: Line -> Peak) returns (table: PeakTable, headerLine: Line)
    requires |data| >= 1
    ensures fresh(table) && table.Valid() && !table.hasOrder
    ensures table.rows == PeakRows(InputPeaks(data, parse)) && headerLine == data[0]
  {
    table := new PeakTable(ParsedRows(data, parse));
    headerLine := table.rows[0].text;
    table.Delete(0);
  }

  /** Sorting, putting the label row back at the top, numbering and
      reordering the columns. */
  method FinishTable(table: PeakTable, headerLine: Line, ghost peaks: seq<Peak>) returns (cells: seq<seq<Cell>>)
    requires table.Valid() && !table.hasOrder && table.rows == PeakRows(peaks)
    modifies table
    ensures cells == SheetCells([LabelRow(headerLine)] + PeakRows(TwoPassSort(peaks)))
    ensures table.Valid() && table.hasOrder
    ensures table.rows == [LabelRow(headerLine)] + PeakRows(TwoPassSort(peaks))
    ensures table.order == OrderColumn(|table.rows|)
  {
    SortPeaks(table, peaks);
    table.Insert(0, LabelRow(headerLine));
    assert table.rows == [LabelRow(headerLine)] + PeakRows(TwoPassSort(peaks));
    cells := OrderedCells(table);
  }

  /** The script's main program, step by step on the table and the sheet. */
  method Run(args: seq<Line>, lines: seq<Line>, parse: Line -> Peak) returns (r: Result<Report, Error>)
    requires 1 <= |args| <= 2 ==> |DataLines(lines)| >= 1
    ensures r == Convert(args, lines, parse)
  {
    var out := OutputName(args);
    if out.None? {
      return Failure(WrongArgumentCount);
    }
    var header, data := SplitLines(lines);
    var table, headerLine := ReadTable(data, parse);
    SplitStripped(lines);
    var version := DetectVersion(header);
    if version.None? {
      return Failure(NoMacsVersion);
    }
    var cells := FinishTable(table, headerLine, InputPeaks(data, parse));
    var sheet := BuildSheet(SheetName(args[0]), cells);
    r := Success(Report(out.value, sheet.name, version.value, header, Evaluate(sheet.grid)));
  }
}
