/** The data sheet of the workbook: a grid of entries into which the script
    inserts formula columns, and the values those formulas compute. */
module Sheet {
  import opened Lines
  import opened Table

  /** A formula of the form "=B?" or "=L?-100": a column of the formula's
      own row, copied or offset by a constant. */
  datatype Formula = CopyOf(column: nat) | OffsetOf(column: nat, delta: int)

  /** A sheet entry: a plain value or a formula. */
  datatype Entry = Value(cell: Cell) | Computed(formula: Formula)

  /** Spreadsheet columns B and L, 0-based. */
  const ColumnB: nat := 1
  const ColumnL: nat := 11

  /** The value a formula shows in the given row. A reference to a missing
      or formula cell, or an offset of a non-number, shows an empty cell. */
  function EvalEntry(row: seq<Entry>, e: Entry): Cell {
    match e
    case Value(c) => c
    case Computed(CopyOf(col)) =>
      if col < |row| && row[col].Value? then row[col].cell else Blank
    case Computed(OffsetOf(col, d)) =>
      if col < |row| && row[col].Value? && row[col].cell.Int? then Int(row[col].cell.n + d) else Blank
  }

  /** The values a finished row shows. */
  function EvalRow(row: seq<Entry>): (r: seq<Cell>)
    ensures |r| == |row|
  {
    seq(|row|, i requires 0 <= i < |row| => EvalEntry(row, row[i]))
  }

  function Evaluate(grid: seq<seq<Entry>>): (r: seq<seq<Cell>>)
    ensures |r| == |grid|
    ensures forall i :: 0 <= i < |grid| ==> r[i] == EvalRow(grid[i])
  {
    seq(|grid|, i requires 0 <= i < |grid| => EvalRow(grid[i]))
  }

  function Values(cells: seq<Cell>): (r: seq<Entry>)
    ensures |r| == |cells| && forall i :: 0 <= i < |cells| ==> r[i] == Value(cells[i])
  {
    seq(|cells|, i requires 0 <= i < |cells| => Value(cells[i]))
  }

  /** A grid of plain values. */
  function ValueGrid(rows: seq<seq<Cell>>): (g: seq<seq<Entry>>)
    ensures |g| == |rows| && forall i :: 0 <= i < |rows| ==> g[i] == Values(rows[i])
  {
    seq(|rows|, i requires 0 <= i < |rows| => Values(rows[i]))
  }

  function Blanks(n: nat): (r: seq<Entry>)
    ensures |r| == n && forall i :: 0 <= i < n ==> r[i] == Value(Blank)
  {
    seq(n, _ => Value(Blank))
  }

  /** Insert e as column k of a row: columns before k stay, columns from k
      on move one to the right; a short row is padded with empty cells. */
  function InsertAt(row: seq<Entry>, k: nat, e: Entry): (r: seq<Entry>)
    ensures |r| == (if k <= |row| then |row| else k) + 1
    ensures r[k] == e
    ensures forall i :: 0 <= i < k ==> r[i] == if i < |row| then row[i] else Value(Blank)
    ensures forall i :: k < i < |r| ==> r[i] == row[i - 1]
  {
    if k <= |row| then row[..k] + [e] + row[k..] else row + Blanks(k - |row|) + [e]
  }

  /** insertColumn(k, title, formula): the title in the first row, the
      formula in every other row. */
  function InsertColumnGrid(grid: seq<seq<Entry>>, k: nat, title: Line, f: Formula): (r: seq<seq<Entry>>)
    ensures |r| == |grid|
    ensures forall i :: 0 <= i < |grid| ==>
              r[i] == InsertAt(grid[i], k, if i == 0 then Value(Text(title)) else Computed(f))
  {
    seq(|grid|, i requires 0 <= i < |grid| =>
      InsertAt(grid[i], k, if i == 0 then Value(Text(title)) else Computed(f)))
  }

  /** The six insertions the script makes, one row at a time. */
  function InsertDerived(row: seq<Entry>, first: bool): seq<Entry> {
    var r1 := InsertAt(row, 4, if first then Value(Text("chr")) else Computed(CopyOf(ColumnB)));
    var r2 := InsertAt(r1, 5, if first then Value(Text("abs_summit-100")) else Computed(OffsetOf(ColumnL, -100)));
    var r3 := InsertAt(r2, 6, if first then Value(Text("abs_summit+100")) else Computed(OffsetOf(ColumnL, 100)));
    var r4 := InsertAt(r3, 7, if first then Value(Text("chr")) else Computed(CopyOf(ColumnB)));
    var r5 := InsertAt(r4, 8, if first then Value(Text("summit-1")) else Computed(OffsetOf(ColumnL, -1)));
    InsertAt(r5, 9, if first then Value(Text("summit")) else Computed(CopyOf(ColumnL)))
  }

  /** The six insertColumn calls on the whole sheet. */
  function WithDerivedColumns(grid: seq<seq<Entry>>): seq<seq<Entry>> {
    var g1 := InsertColumnGrid(grid, 4, "chr", CopyOf(ColumnB));
    var g2 := InsertColumnGrid(g1, 5, "abs_summit-100", OffsetOf(ColumnL, -100));
    var g3 := InsertColumnGrid(g2, 6, "abs_summit+100", OffsetOf(ColumnL, 100));
    var g4 := InsertColumnGrid(g3, 7, "chr", CopyOf(ColumnB));
    var g5 := InsertColumnGrid(g4, 8, "summit-1", OffsetOf(ColumnL, -1));
    InsertColumnGrid(g5, 9, "summit", CopyOf(ColumnL))
  }

  /** The sheet-wide insertions act on each row on its own. */
  lemma DerivedByRow(grid: seq<seq<Entry>>)
    ensures |WithDerivedColumns(grid)| == |grid|
    ensures forall i :: 0 <= i < |grid| ==> WithDerivedColumns(grid)[i] == InsertDerived(grid[i], i == 0)
  {
  }

  /** Where the six new columns land in a ten-column row. */
  lemma DerivedLayout(row: seq<Entry>, first: bool)
    requires |row| == 10
    ensures InsertDerived(row, first) ==
            row[..4] +
            (if first
             then [Value(Text("chr")), Value(Text("abs_summit-100")), Value(Text("abs_summit+100")),
                   Value(Text("chr")), Value(Text("summit-1")), Value(Text("summit"))]
             else [Computed(CopyOf(ColumnB)), Computed(OffsetOf(ColumnL, -100)), Computed(OffsetOf(ColumnL, 100)),
                   Computed(CopyOf(ColumnB)), Computed(OffsetOf(ColumnL, -1)), Computed(CopyOf(ColumnL))]) +
            row[4..]
  {
    var r := InsertDerived(row, first);
    assert |r| == 16;
  }

  /** A data row after the insertions shows copies of its own chr (column B)
      and offsets of its own abs_summit, which has moved to column L. */
  lemma DerivedDataRow(cells: seq<Cell>)
    requires |cells| == 10 && cells[5].Int?
    ensures EvalRow(InsertDerived(Values(cells), false)) ==
            cells[..4] +
            [cells[1], Int(cells[5].n - 100), Int(cells[5].n + 100), cells[1], Int(cells[5].n - 1), cells[5]] +
            cells[4..]
  {
    var row := Values(cells);
    DerivedLayout(row, false);
    var r := InsertDerived(row, false);
    assert r[ColumnB] == Value(cells[1]) && r[ColumnL] == Value(cells[5]);
    var e := EvalRow(r);
    var want := cells[..4] +
            [cells[1], Int(cells[5].n - 100), Int(cells[5].n + 100), cells[1], Int(cells[5].n - 1), cells[5]] +
            cells[4..];
    forall i | 0 <= i < 16 ensures e[i] == want[i] {
      if i < 4 || i >= 10 { assert r[i] == Value(want[i]); }
    }
  }

  /** The first row gets the six column titles. */
  lemma DerivedTitleRow(cells: seq<Cell>)
    requires |cells| == 10
    ensures EvalRow(InsertDerived(Values(cells), true)) ==
            cells[..4] +
            [Text("chr"), Text("abs_summit-100"), Text("abs_summit+100"), Text("chr"), Text("summit-1"), Text("summit")] +
            cells[4..]
  {
    var row := Values(cells);
    DerivedLayout(row, true);
    var r := InsertDerived(row, true);
    var e := EvalRow(r);
    var want := cells[..4] +
            [Text("chr"), Text("abs_summit-100"), Text("abs_summit+100"), Text("chr"), Text("summit-1"), Text("summit")] +
            cells[4..];
    forall i | 0 <= i < 16 ensures e[i] == want[i] {
      if i < 4 || i >= 10 { assert r[i] == Value(want[i]); }
    }
  }

  /** The workbook's data sheet. */
  class DataSheet {
    const name: Line
    var grid: seq<seq<Entry>>

    constructor (name: Line)
      ensures this.name == name && grid == []
    {
      this.name := name;
      grid := [];
    }

    /** addText: one row of plain values per table row. */
    method AddRows(rows: seq<seq<Cell>>)
      modifies this
      ensures grid == old(grid) + ValueGrid(rows)
    {
      grid := grid + ValueGrid(rows);
    }

    /** insertColumn(k, title, formula) */
    method InsertColumn(k: nat, title: Line, f: Formula)
      modifies this
      ensures grid == InsertColumnGrid(old(grid), k, title, f)
    {
      grid := InsertColumnGrid(grid, k, title, f);
    }
  }
}
