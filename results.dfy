/** What the conversion promises end to end: its error cases, the names
    it chooses, and the exact rows of the data sheet. */
module Results {
  import opened Wrappers
  import opened Lines
  import opened Naming
  import opened Sorting
  import opened Table
  import opened Sheet
  import opened Pipeline

  /** The sheet's first row: "#order", the label line's first three fields
      (chr, start, end), the six titles of the formula columns, then its
      remaining six fields. */
  function TitleRow(labels: Line): seq<Cell> {
    [Text("#order"), LabelCell(labels, 0), LabelCell(labels, 1), LabelCell(labels, 2),
     Text("chr"), Text("abs_summit-100"), Text("abs_summit+100"), Text("chr"), Text("summit-1"), Text("summit"),
     LabelCell(labels, 3), LabelCell(labels, 4), LabelCell(labels, 5), LabelCell(labels, 6), LabelCell(labels, 7),
     LabelCell(labels, 8)]
  }

  /** Sheet row i for peak p: its order number, chr, start, end, the six
      computed columns, then length, abs_summit, pileup, pvalue, fold
      enrichment and qvalue. */
  function DataRow(i: int, p: Peak): seq<Cell> {
    [Int(i), Text(p.chr), Int(p.start), Int(p.end),
     Text(p.chr), Int(p.absSummit - 100), Int(p.absSummit + 100), Text(p.chr), Int(p.absSummit - 1), Int(p.absSummit),
     Int(p.length), Int(p.absSummit), Int(p.pileup), Int(p.pvalue), Int(p.foldEnrichment), Int(p.qvalue)]
  }

  /** The column positions of pvalue and fold enrichment in the data sheet. */
  const PValueColumn: nat := 13
  const FoldEnrichmentColumn: nat := 14

  /** Six cells between the first four and the last six of ten. */
  lemma SixInserted(c: seq<Cell>, m: seq<Cell>)
    requires |c| == 10 && |m| == 6
    ensures c[..4] + m + c[4..] ==
            [c[0], c[1], c[2], c[3], m[0], m[1], m[2], m[3], m[4], m[5], c[4], c[5], c[6], c[7], c[8], c[9]]
  {
  }

  /** The label row in its finished form. */
  lemma TitleRowOf(labels: Line)
    ensures EvalRow(InsertDerived(Values(Reorder(OutputColumns, LabelRow(labels), Text("#order"))), true)) ==
            TitleRow(labels)
  {
    var c := Reorder(OutputColumns, LabelRow(labels), Text("#order"));
    LabelLayout(labels, Text("#order"));
    DerivedTitleRow(c);
    SixInserted(c, [Text("chr"), Text("abs_summit-100"), Text("abs_summit+100"), Text("chr"), Text("summit-1"), Text("summit")]);
  }

  /** A peak row in its finished form. */
  lemma DataRowOf(p: Peak, i: int)
    ensures EvalRow(InsertDerived(Values(Reorder(OutputColumns, PeakRow(p), Int(i))), false)) == DataRow(i, p)
  {
    var c := Reorder(OutputColumns, PeakRow(p), Int(i));
    PeakLayout(p, Int(i));
    DerivedDataRow(c);
    DataCells(c, p, i);
  }

  lemma DataCells(c: seq<Cell>, p: Peak, i: int)
    requires c == [Int(i), Text(p.chr), Int(p.start), Int(p.end), Int(p.length), Int(p.absSummit),
                   Int(p.pileup), Int(p.pvalue), Int(p.foldEnrichment), Int(p.qvalue)]
    ensures c[..4] + [c[1], Int(c[5].n - 100), Int(c[5].n + 100), c[1], Int(c[5].n - 1), c[5]] + c[4..] == DataRow(i, p)
  {
    SixInserted(c, [c[1], Int(c[5].n - 100), Int(c[5].n + 100), c[1], Int(c[5].n - 1), c[5]]);
  }

  /** Row i of the data sheet is table row i, numbered, reordered, with the
      six columns inserted and evaluated. */
  lemma SheetRowOfTableRow(rows: seq<Row>, i: nat)
    requires i < |rows|
    ensures |DataSheetValues(SheetCells(rows))| == |rows|
    ensures DataSheetValues(SheetCells(rows))[i] ==
            EvalRow(InsertDerived(Values(Reorder(OutputColumns, rows[i], OrderColumn(|rows|)[i])), i == 0))
  {
    var g := ValueGrid(SheetCells(rows));
    DerivedByRow(g);
  }

  /** Row i of the data sheet built from the label row and the peaks. */
  lemma SheetRow(labels: Line, peaks: seq<Peak>, i: nat)
    requires i <= |peaks|
    ensures |DataSheetValues(SheetCells([LabelRow(labels)] + PeakRows(peaks)))| == |peaks| + 1
    ensures DataSheetValues(SheetCells([LabelRow(labels)] + PeakRows(peaks)))[i] ==
            if i == 0 then TitleRow(labels) else DataRow(i, peaks[i - 1])
  {
    var rows := [LabelRow(labels)] + PeakRows(peaks);
    SheetRowOfTableRow(rows, i);
    if i == 0 {
      TitleRowOf(labels);
    } else {
      assert rows[i] == PeakRow(peaks[i - 1]);
      DataRowOf(peaks[i - 1], i);
    }
  }

  /** The data sheet built from the label row and the peaks in a given order. */
  lemma SheetRows(labels: Line, peaks: seq<Peak>)
    ensures |DataSheetValues(SheetCells([LabelRow(labels)] + PeakRows(peaks)))| == |peaks| + 1
    ensures DataSheetValues(SheetCells([LabelRow(labels)] + PeakRows(peaks)))[0] == TitleRow(labels)
    ensures forall i :: 1 <= i <= |peaks| ==>
              DataSheetValues(SheetCells([LabelRow(labels)] + PeakRows(peaks)))[i] == DataRow(i, peaks[i - 1])
  {
    SheetRow(labels, peaks, 0);
    forall i | 1 <= i <= |peaks|
      ensures DataSheetValues(SheetCells([LabelRow(labels)] + PeakRows(peaks)))[i] == DataRow(i, peaks[i - 1])
    {
      SheetRow(labels, peaks, i);
    }
  }

  /** A wrong number of arguments is rejected before the input is looked at. */
  lemma ConvertRejectsArguments(args: seq<Line>, lines: seq<Line>, parse: Line -> Peak)
    requires !(1 <= |args| <= 2)
    ensures Convert(args, lines, parse) == Failure(WrongArgumentCount)
    ensures ExitStatus(Convert(args, lines, parse).error) == 2
  {
  }

  /** With the right arguments the conversion fails exactly when no header
      line carries the MACS version; otherwise the version is field 8 of
      the first such line. */
  lemma ConvertVersion(args: seq<Line>, lines: seq<Line>, parse: Line -> Peak)
    requires 1 <= |args| <= 2 && |DataLines(lines)| >= 1
    ensures Convert(args, lines, parse).Failure? <==>
            forall i :: 0 <= i < |HeaderLines(lines)| ==> !IsVersionLine(HeaderLines(lines)[i])
    ensures Convert(args, lines, parse).Failure? ==>
            Convert(args, lines, parse) == Failure(NoMacsVersion) && ExitStatus(NoMacsVersion) == 1
    ensures Convert(args, lines, parse).Success? ==>
            exists i :: VersionAt(HeaderLines(lines), i, Convert(args, lines, parse).value.version)
  {
    SplitStripped(lines);
  }

  /** The names of the output file and of the data sheet, and the notes. */
  lemma ConvertNames(args: seq<Line>, lines: seq<Line>, parse: Line -> Peak)
    requires 1 <= |args| <= 2 && |DataLines(lines)| >= 1
    requires Convert(args, lines, parse).Success?
    ensures Convert(args, lines, parse).value.outputName ==
            (if |args| == 2 then args[1] else DefaultOutputName(args[0]))
    ensures Convert(args, lines, parse).value.dataSheetName == SheetName(args[0])
    ensures Convert(args, lines, parse).value.notes == HeaderLines(lines)
  {
    SplitStripped(lines);
  }

  /** The data sheet: the title row, then one row per peak in the two-pass
      sort order, numbered from 1, with the six computed columns. */
  lemma ConvertRows(args: seq<Line>, lines: seq<Line>, parse: Line -> Peak)
    requires 1 <= |args| <= 2 && |DataLines(lines)| >= 1
    requires Convert(args, lines, parse).Success?
    ensures var d := Convert(args, lines, parse).value.data;
            var peaks := TwoPassSort(InputPeaks(DataLines(lines), parse));
            |d| == |DataLines(lines)| &&
            d[0] == TitleRow(DataLines(lines)[0]) &&
            (forall i :: 1 <= i < |d| ==> d[i] == DataRow(i, peaks[i - 1])) &&
            multiset(peaks) == multiset(InputPeaks(DataLines(lines), parse))
  {
    SplitStripped(lines);
    var data := DataLines(lines);
    var peaks := TwoPassSort(InputPeaks(data, parse));
    TwoPassSortCorrect(InputPeaks(data, parse));
    assert |peaks| == |data| - 1 by {
      assert |multiset(peaks)| == |multiset(InputPeaks(data, parse))|;
    }
    SheetRows(data[0], peaks);
  }

  /** A data row with numbers in its pvalue and fold-enrichment columns. */
  predicate HasKeys(row: seq<Cell>) {
    |row| == 16 && row[PValueColumn].Int? && row[FoldEnrichmentColumn].Int?
  }

  /** The sheet's rows after the title go by pvalue, largest first, and by
      fold enrichment among rows with the same pvalue. */
  predicate SheetSorted(d: seq<seq<Cell>>) {
    (forall i :: 1 <= i < |d| ==> HasKeys(d[i])) &&
    forall i, j :: 1 <= i < j < |d| ==>
      d[i][PValueColumn].n >= d[j][PValueColumn].n &&
      (d[i][PValueColumn].n == d[j][PValueColumn].n ==>
         d[i][FoldEnrichmentColumn].n >= d[j][FoldEnrichmentColumn].n)
  }

  /** Rows made from peaks in pvalue order, fold enrichment breaking ties,
      keep that order in their pvalue and fold-enrichment columns. */
  lemma {:induction false} RowsSorted(d: seq<seq<Cell>>, peaks: seq<Peak>)
    requires |d| == |peaks| + 1
    requires forall i :: 1 <= i < |d| ==> d[i] == DataRow(i, peaks[i - 1])
    requires forall i, j :: 0 <= i < j < |peaks| ==> peaks[i].pvalue >= peaks[j].pvalue
    requires forall i, j :: 0 <= i < j < |peaks| && peaks[i].pvalue == peaks[j].pvalue ==>
               peaks[i].foldEnrichment >= peaks[j].foldEnrichment
    ensures SheetSorted(d)
  {
    forall i | 1 <= i < |d| ensures HasKeys(d[i]) {
      assert d[i] == DataRow(i, peaks[i - 1]);
    }
    forall i, j | 1 <= i < j < |d|
      ensures d[i][PValueColumn].n >= d[j][PValueColumn].n
      ensures d[i][PValueColumn].n == d[j][PValueColumn].n ==>
                d[i][FoldEnrichmentColumn].n >= d[j][FoldEnrichmentColumn].n
    {
      assert d[i] == DataRow(i, peaks[i - 1]) && d[j] == DataRow(j, peaks[j - 1]);
    }
  }

  /** The data sheet's rows go by pvalue, largest first, and by fold
      enrichment among rows with the same pvalue. */
  lemma ConvertSorted(args: seq<Line>, lines: seq<Line>, parse: Line -> Peak)
    requires 1 <= |args| <= 2 && |DataLines(lines)| >= 1
    requires Convert(args, lines, parse).Success?
    ensures SheetSorted(Convert(args, lines, parse).value.data)
  {
    ConvertRows(args, lines, parse);
    var peaks := TwoPassSort(InputPeaks(DataLines(lines), parse));
    TwoPassSortCorrect(InputPeaks(DataLines(lines), parse));
    RowsSorted(Convert(args, lines, parse).value.data, peaks);
  }

  /** The computed columns for a summit at 150. */
  lemma DerivedExample()
    ensures EvalRow(InsertDerived(Values(Reorder(OutputColumns, PeakRow(Peak("chr1", 100, 200, 100, 150, 10, 2, 1, 1)), Int(1))), false))[4..10] ==
            [Text("chr1"), Int(50), Int(250), Text("chr1"), Int(149), Int(150)]
  {
    DerivedCells(Peak("chr1", 100, 200, 100, 150, 10, 2, 1, 1), 1);
  }

  /** The six computed cells of a numbered peak row. */
  lemma DerivedCells(p: Peak, i: int)
    ensures EvalRow(InsertDerived(Values(Reorder(OutputColumns, PeakRow(p), Int(i))), false))[4..10] ==
            [Text(p.chr), Int(p.absSummit - 100), Int(p.absSummit + 100), Text(p.chr), Int(p.absSummit - 1), Int(p.absSummit)]
  {
    var d := DataRow(i, p);
    var e := [Text(p.chr), Int(p.absSummit - 100), Int(p.absSummit + 100), Text(p.chr), Int(p.absSummit - 1), Int(p.absSummit)];
    assert d[4..10] == e by {
      assert |d| == 16;
      forall j | 0 <= j < 6 ensures d[4..10][j] == e[j] {
        assert d[4..10][j] == d[4 + j];
      }
    }
    DataRowOf(p, i);
  }
}
