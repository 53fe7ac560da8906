/** The in-memory table of peaks (the script's TabFile): a label row and
    peak rows, the operations the script performs on it in place, the
    "order" column and the final column order. */
module Table {
  import opened Lines
  import opened Sorting

  /** A table or sheet cell: empty, text, or a number. */
  datatype Cell = Blank | Text(s: Line) | Int(n: int)

  /** A table row: the input's column-label line, kept as its text, or a peak. */
  datatype Row = LabelRow(text: Line) | PeakRow(peak: Peak)

  /** The columns the input table declares, in input order. */
  const InputColumns: seq<Line> :=
    ["chr", "start", "end", "length", "abs_summit", "pileup", "-log10(pvalue)", "fold_enrichment", "-log10(qvalue)"]

  /** The column order of the data sheet. */
  const OutputColumns: seq<Line> :=
    ["order", "chr", "start", "end", "length", "abs_summit", "pileup", "-log10(pvalue)", "fold_enrichment", "-log10(qvalue)"]

  /** s.split('\t'): the tab-separated fields, always at least one. */
  function TabFields(s: Line): (r: seq<Line>)
    ensures |r| >= 1
    ensures forall i, j :: 0 <= i < |r| && 0 <= j < |r[i]| ==> r[i][j] != '\t'
  {
    if s == [] then [[]]
    else
      var rest := TabFields(s[1..]);
      if s[0] == '\t' then [[]] + rest
      else [[s[0]] + rest[0]] + rest[1..]
  }

  /** '\t'.join(fields). */
  function JoinTabs(fields: seq<Line>): Line
    requires |fields| >= 1
  {
    if |fields| == 1 then fields[0] else fields[0] + "\t" + JoinTabs(fields[1..])
  }

  /** Splitting on tabs loses nothing: joining the fields gives the text back. */
  lemma {:induction false} JoinTabFields(s: Line)
    ensures JoinTabs(TabFields(s)) == s
  {
    if s != [] {
      var rest := TabFields(s[1..]);
      JoinTabFields(s[1..]);
      if s[0] == '\t' {
        assert ([[]] + rest)[1..] == rest;
        assert s == [] + "\t" + JoinTabs(rest);
      } else {
        var r := [[s[0]] + rest[0]] + rest[1..];
        if |rest| == 1 {
          assert s == [s[0]] + rest[0];
        } else {
          assert r[1..] == rest[1..];
          assert JoinTabs(rest) == rest[0] + "\t" + JoinTabs(rest[1..]);
          assert s == [s[0]] + rest[0] + "\t" + JoinTabs(rest[1..]);
        }
      }
    }
  }

  /** The position of a column in the input table, or -1 for another name. */
  function ColumnPosition(name: Line): (i: int)
    ensures -1 <= i < |InputColumns|
    ensures i >= 0 ==> InputColumns[i] == name
    ensures i == -1 <==> name !in InputColumns
  {
    if name == "chr" then 0
    else if name == "start" then 1
    else if name == "end" then 2
    else if name == "length" then 3
    else if name == "abs_summit" then 4
    else if name == "pileup" then 5
    else if name == "-log10(pvalue)" then 6
    else if name == "fold_enrichment" then 7
    else if name == "-log10(qvalue)" then 8
    else -1
  }

  /** The value of a peak's named column. */
  function PeakField(p: Peak, name: Line): Cell {
    if name == "chr" then Text(p.chr)
    else if name == "start" then Int(p.start)
    else if name == "end" then Int(p.end)
    else if name == "length" then Int(p.length)
    else if name == "abs_summit" then Int(p.absSummit)
    else if name == "pileup" then Int(p.pileup)
    else if name == "-log10(pvalue)" then Int(p.pvalue)
    else if name == "fold_enrichment" then Int(p.foldEnrichment)
    else if name == "-log10(qvalue)" then Int(p.qvalue)
    else Blank
  }

  /** Field i of the label line, or an empty cell if it has fewer fields. */
  function LabelCell(text: Line, i: nat): Cell {
    var fields := TabFields(text);
    if i < |fields| then Text(fields[i]) else Blank
  }

  /** The value of the label row's named column: its tab field at the
      column's input position. */
  function LabelField(text: Line, name: Line): Cell {
    var i := ColumnPosition(name);
    if i >= 0 then LabelCell(text, i) else Blank
  }

  /** row[name], where order is the row's value in the "order" column. */
  function Lookup(row: Row, order: Cell, name: Line): Cell {
    if name == "order" then order
    else match row
      case PeakRow(p) => PeakField(p, name)
      case LabelRow(t) => LabelField(t, name)
  }

  /** The row's cells with the columns in the given order. */
  function Reorder(names: seq<Line>, row: Row, order: Cell): (cells: seq<Cell>)
    ensures |cells| == |names|
  {
    seq(|names|, i requires 0 <= i < |names| => Lookup(row, order, names[i]))
  }

  /** Reordering moves values with their column names and changes none. */
  lemma ReorderKeepsValues(row: Row, order: Cell, names: seq<Line>, other: seq<Line>, i: nat, j: nat)
    requires i < |names| && j < |other| && names[i] == other[j]
    ensures Reorder(names, row, order)[i] == Reorder(other, row, order)[j]
  {
  }

  /** A peak row in the data-sheet column order. */
  lemma PeakLayout(p: Peak, order: Cell)
    ensures Reorder(OutputColumns, PeakRow(p), order) ==
            [order, Text(p.chr), Int(p.start), Int(p.end), Int(p.length), Int(p.absSummit),
             Int(p.pileup), Int(p.pvalue), Int(p.foldEnrichment), Int(p.qvalue)]
  {
  }

  /** The label row in the data-sheet column order: the order label, then
      its tab fields in input order. */
  lemma LabelLayout(text: Line, order: Cell)
    ensures Reorder(OutputColumns, LabelRow(text), order) ==
            [order, LabelCell(text, 0), LabelCell(text, 1), LabelCell(text, 2), LabelCell(text, 3),
             LabelCell(text, 4), LabelCell(text, 5), LabelCell(text, 6), LabelCell(text, 7), LabelCell(text, 8)]
  {
  }

  /** The "order" column the script fills in: "#order" on the label row,
      then 1, 2, 3, ... */
  function OrderColumn(n: nat): (c: seq<Cell>)
    requires n >= 1
    ensures |c| == n && c[0] == Text("#order")
    ensures forall i :: 1 <= i < n ==> c[i] == Int(i)
  {
    [Text("#order")] + seq(n - 1, j requires 0 <= j < n - 1 => Int(j + 1))
  }

  predicate AllPeaks(rows: seq<Row>) {
    forall i :: 0 <= i < |rows| ==> rows[i].PeakRow?
  }

  function Peaks(rows: seq<Row>): (ps: seq<Peak>)
    requires AllPeaks(rows)
    ensures |ps| == |rows| && forall i :: 0 <= i < |rows| ==> ps[i] == rows[i].peak
  {
    seq(|rows|, i requires 0 <= i < |rows| => rows[i].peak)
  }

  function PeakRows(ps: seq<Peak>): (rows: seq<Row>)
    ensures |rows| == |ps| && AllPeaks(rows)
    ensures forall i :: 0 <= i < |ps| ==> rows[i] == PeakRow(ps[i])
  {
    seq(|ps|, i requires 0 <= i < |ps| => PeakRow(ps[i]))
  }

  /** The table of rows, with an "order" column once it is appended. */
  class PeakTable {
    var rows: seq<Row>
    var order: seq<Cell>
    var hasOrder: bool

    /** The order column, when present, has a value for every row. */
    ghost predicate Valid()
      reads this
    {
      (hasOrder ==> |order| == |rows|) && (!hasOrder ==> order == [])
    }

    constructor (initial: seq<Row>)
      ensures Valid() && rows == initial && !hasOrder
    {
      rows := initial;
      order := [];
      hasOrder := false;
    }

    /** del data[i] */
    method Delete(i: nat)
      requires Valid() && !hasOrder && i < |rows|
      modifies this
      ensures Valid() && !hasOrder
      ensures rows == old(rows[..i] + rows[i + 1..])
    {
      rows := rows[..i] + rows[i + 1..];
    }

    /** data.insert(i, row) */
    method Insert(i: nat, row: Row)
      requires Valid() && !hasOrder && i <= |rows|
      modifies this
      ensures Valid() && !hasOrder
      ensures rows == old(rows[..i] + [row] + rows[i..])
    {
      rows := rows[..i] + [row] + rows[i..];
    }

    /** data.sort(sort_func, reverse=True), taken to be a stable descending sort on one column. */
    method Sort(k: SortKey)
      requires Valid() && !hasOrder && AllPeaks(rows)
      modifies this
      ensures Valid() && !hasOrder && AllPeaks(rows)
      ensures rows == PeakRows(SortBy(k, Peaks(old(rows))))
    {
      rows := PeakRows(SortBy(k, Peaks(rows)));
    }

    /** data.appendColumn("order"): a new, empty column on every row. */
    method AppendOrderColumn()
      requires Valid() && !hasOrder
      modifies this
      ensures Valid() && hasOrder && rows == old(rows)
      ensures order == seq(|rows|, _ => Blank)
    {
      order := seq(|rows|, _ => Blank);
      hasOrder := true;
    }

    /** data[i]['order'] = value */
    method SetOrder(i: nat, value: Cell)
      requires Valid() && hasOrder && i < |rows|
      modifies this
      ensures Valid() && hasOrder && rows == old(rows)
      ensures order == old(order)[i := value]
    {
      order := order[i := value];
    }

    /** data.reorderColumns(names), as the cells of each row. */
    function Reordered(names: seq<Line>): (grid: seq<seq<Cell>>)
      reads this
      requires Valid() && hasOrder
      ensures |grid| == |rows|
      ensures forall i :: 0 <= i < |rows| ==> grid[i] == Reorder(names, rows[i], order[i])
    {
      var rs, os := rows, order;
      seq(|rs|, i requires 0 <= i < |rs| && |os| == |rs| => Reorder(names, rs[i], os[i]))
    }
  }
}
