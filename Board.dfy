/**
 * The propagation board: a row view and a column view of the same grid,
 * kept equal cell by cell, and the loop that alternates deduction and
 * filtering between the two views.
 */
module Boards {
  import opened Runs
  import opened Lines
  import opened Enumeration
  import opened LineSolver
  import opened Grids

  /** The cells of each line, as values. */
  ghost function CellsOf(lines: seq<CellLine>): (g: seq<seq<Cell>>)
    reads lines
    ensures |g| == |lines| && forall k :: 0 <= k < |lines| ==> g[k] == lines[k].cells
  {
    seq(|lines|, k requires 0 <= k < |lines| reads lines => lines[k].cells)
  }

  /** The candidates of each possibility set, as values. */
  ghost function Candidates(sets: seq<DataSet>): (c: seq<seq<BoolLine>>)
    reads sets
    ensures |c| == |sets| && forall k :: 0 <= k < |sets| ==> c[k] == sets[k].lines
  {
    seq(|sets|, k requires 0 <= k < |sets| reads sets => sets[k].lines)
  }

  /** `count` distinct lines of `len` unknown cells, all newly made. */
  method NewLines(count: nat, len: nat) returns (lines: seq<CellLine>)
    ensures |lines| == count
    ensures forall k :: 0 <= k < count ==> fresh(lines[k]) && lines[k].cells == Unknowns(len)
    ensures forall a, b :: 0 <= a < b < count ==> lines[a] != lines[b]
  {
    lines := [];
    while |lines| < count
      invariant |lines| <= count
      invariant forall k :: 0 <= k < |lines| ==> fresh(lines[k]) && lines[k].cells == Unknowns(len)
      invariant forall a, b :: 0 <= a < b < |lines| ==> lines[a] != lines[b]
    {
      var line := new CellLine(len);
      lines := lines + [line];
    }
  }

  /** A newly made possibility set holding the arrangements of `limit`. */
  method NewDataSet(len: nat, limit: seq<nat>) returns (ds: DataSet)
    requires ValidLimit(len, limit)
    ensures fresh(ds) && ds.lines == Arrangements(len, limit)
  {
    ds := new DataSet(len, limit);
  }

  /** One newly made possibility set per run list, each listing every line of `len` cells its run list allows. */
  method NewDataSets(len: nat, limits: seq<seq<nat>>) returns (sets: seq<DataSet>)
    requires forall k :: 0 <= k < |limits| ==> ValidLimit(len, limits[k])
    ensures |sets| == |limits|
    ensures forall k :: 0 <= k < |sets| ==> fresh(sets[k])
    ensures forall a, b :: 0 <= a < b < |sets| ==> sets[a] != sets[b]
    ensures Candidates(sets) == AllArrangements(len, limits)
  {
    sets := [];
    ghost var made: seq<seq<BoolLine>> := [];
    while |sets| < |limits|
      invariant |sets| == |made| <= |limits|
      invariant forall k :: 0 <= k < |sets| ==> fresh(sets[k])
      invariant forall a, b :: 0 <= a < b < |sets| ==> sets[a] != sets[b]
      invariant forall k :: 0 <= k < |sets| ==> sets[k].lines == made[k]
      invariant made == AllArrangements(len, limits[..|made|])
    {
      var ds := NewDataSet(len, limits[|sets|]);
      AllArrangementsAppend(len, limits, |made|);
      made := made + [ds.lines];
      sets := sets + [ds];
    }
    assert limits[..|made|] == limits;
    assert Candidates(sets) == made;
  }

  /** Filters each possibility set against the line of the same index. */
  method FilterSets(sets: seq<DataSet>, lines: seq<CellLine>)
    requires forall a, b :: 0 <= a < b < |sets| ==> sets[a] != sets[b]
    requires forall k :: 0 <= k < |sets| && k < |lines| ==> AllOfLength(sets[k].lines, |lines[k].cells|)
    modifies sets
    ensures Candidates(sets) == FilterAll(old(Candidates(sets)), CellsOf(lines))
  {
    ghost var before := Candidates(sets);
    FilterEach(sets, lines);
    FilterAllOf(before, CellsOf(lines), Candidates(sets));
  }

  /** The loop of `FilterSets`, stated set by set. */
  method FilterEach(sets: seq<DataSet>, lines: seq<CellLine>)
    requires forall a, b :: 0 <= a < b < |sets| ==> sets[a] != sets[b]
    requires forall k :: 0 <= k < |sets| && k < |lines| ==> AllOfLength(sets[k].lines, |lines[k].cells|)
    modifies sets
    ensures forall m :: 0 <= m < |sets| && m < |lines| ==> sets[m].lines == Filter(old(sets[m].lines), lines[m].cells)
    ensures forall m :: |lines| <= m < |sets| ==> sets[m].lines == old(sets[m].lines)
  {
    var k := 0;
    while k < |sets| && k < |lines|
      invariant 0 <= k <= |sets| && k <= |lines|
      invariant forall m :: 0 <= m < k ==> sets[m].lines == Filter(old(sets[m].lines), lines[m].cells)
      invariant forall m :: k <= m < |sets| ==> sets[m].lines == old(sets[m].lines)
    {
      sets[k].Update(lines[k]);
      k := k + 1;
    }
  }

  class Board {
    const rows: seq<CellLine>
    const columns: seq<CellLine>
    const rowLimits: seq<seq<nat>>
    const colLimits: seq<seq<nat>>

    /** Every row is as long as there are columns and vice versa; no line object is shared. */
    ghost predicate Valid()
      reads this, rows, columns
    {
      (forall i :: 0 <= i < |rows| ==> |rows[i].cells| == |columns|) &&
      (forall j :: 0 <= j < |columns| ==> |columns[j].cells| == |rows|) &&
      (forall a, b :: 0 <= a < b < |rows| ==> rows[a] != rows[b]) &&
      (forall a, b :: 0 <= a < b < |columns| ==> columns[a] != columns[b]) &&
      (forall i, j :: 0 <= i < |rows| && 0 <= j < |columns| ==> rows[i] != columns[j])
    }

    /** Both views hold the same grid: cell `j` of row `i` is cell `i` of column `j`. */
    ghost predicate Mirrored()
      reads this, rows, columns
      requires Valid()
    {
      forall i, j :: 0 <= i < |rows| && 0 <= j < |columns| ==> rows[i].cells[j] == columns[j].cells[i]
    }

    /** On a consistent board the column view is the transpose of the row view. */
    lemma MirroredCells()
      requires Valid() && Mirrored()
      ensures Transposed(CellsOf(rows), CellsOf(columns))
    {
    }

    /** `height` rows of `width` unknown cells and `width` columns of `height` unknown cells. */
    constructor (height: nat, width: nat, rowLimits: seq<seq<nat>>, colLimits: seq<seq<nat>>)
      ensures Valid() && Mirrored()
      ensures |rows| == height && |columns| == width
      ensures forall i :: 0 <= i < height ==> fresh(rows[i]) && rows[i].cells == Unknowns(width)
      ensures forall j :: 0 <= j < width ==> fresh(columns[j]) && columns[j].cells == Unknowns(height)
      ensures this.rowLimits == rowLimits && this.colLimits == colLimits
    {
      var rs := NewLines(height, width);
      var cs := NewLines(width, height);
      this.rows := rs;
      this.columns := cs;
      this.rowLimits := rowLimits;
      this.colLimits := colLimits;
    }

    /**
     * The stop test: every column (paired with a run list) has as many
     * `Full` cells as its runs add up to. Rows are not inspected.
     */
    function Finished(): (done: bool)
      reads this, columns
      ensures done <==> forall j :: 0 <= j < |columns| && j < |colLimits| ==>
        FullCount(columns[j].cells) == Sum(colLimits[j])
    {
      FinishedFrom(0)
    }

    function FinishedFrom(j: nat): (done: bool)
      reads this, columns
      ensures done <==> forall k :: j <= k < |columns| && k < |colLimits| ==>
        FullCount(columns[k].cells) == Sum(colLimits[k])
      decreases |columns| - j
    {
      if j >= |columns| || j >= |colLimits| then true
      else if FullCount(columns[j].cells) != Sum(colLimits[j]) then false
      else FinishedFrom(j + 1)
    }

    /** Every run list fits the line it constrains, as the enumerator needs. */
    predicate LimitsFit()
    {
      (forall i :: 0 <= i < |rowLimits| ==> ValidLimit(|columns|, rowLimits[i])) &&
      (forall j :: 0 <= j < |colLimits| ==> ValidLimit(|rows|, colLimits[j]))
    }

    /**
     * The possibility sets of the loop: one per run list, none shared,
     * every candidate of the right length and with the blocks its run list
     * asks for.
     */
    ghost predicate SetsHold(rowSets: seq<DataSet>, colSets: seq<DataSet>)
      reads rowSets, colSets
    {
      (forall a, b :: 0 <= a < b < |rowSets| ==> rowSets[a] != rowSets[b]) &&
      (forall a, b :: 0 <= a < b < |colSets| ==> colSets[a] != colSets[b]) &&
      (forall a, b :: 0 <= a < |rowSets| && 0 <= b < |colSets| ==> rowSets[a] != colSets[b]) &&
      SetsFit(Candidates(rowSets), |columns|, rowLimits) &&
      SetsFit(Candidates(colSets), |rows|, colLimits)
    }

    /** The initial possibility sets: all lines each run list allows, rows and then columns. */
    method GenerateDataSet() returns (rowSets: seq<DataSet>, colSets: seq<DataSet>)
      requires LimitsFit()
      ensures SetsHold(rowSets, colSets)
      ensures forall k :: 0 <= k < |rowSets| ==> fresh(rowSets[k])
      ensures forall k :: 0 <= k < |colSets| ==> fresh(colSets[k])
      ensures Candidates(rowSets) == AllArrangements(|columns|, rowLimits)
      ensures Candidates(colSets) == AllArrangements(|rows|, colLimits)
    {
      var height := |rows|;
      var width := |columns|;
      rowSets := NewDataSets(width, rowLimits);
      colSets := NewDataSets(height, colLimits);
      ArrangementsListed(width, rowLimits);
      ArrangementsListed(height, colLimits);
      ListedFit(Candidates(rowSets), width, rowLimits, []);
      ListedFit(Candidates(colSets), height, colLimits, []);
    }

    /** Copies row `i` into cell `i` of every column. */
    method CopyRow(i: nat)
      requires Valid() && i < |rows|
      requires forall k, j :: 0 <= k < |rows| && k != i && 0 <= j < |columns| ==>
        rows[k].cells[j] == columns[j].cells[k]
      modifies columns
      ensures Valid() && Mirrored()
      ensures forall k :: 0 <= k < |rows| ==> rows[k].cells == old(rows[k].cells)
    {
      var j := 0;
      while j < |columns|
        invariant 0 <= j <= |columns|
        invariant Valid()
        invariant forall k :: 0 <= k < |rows| ==> rows[k].cells == old(rows[k].cells)
        invariant forall k, c :: 0 <= k < |rows| && k != i && 0 <= c < |columns| ==>
          rows[k].cells[c] == columns[c].cells[k]
        invariant forall c :: 0 <= c < j ==> columns[c].cells[i] == rows[i].cells[c]
      {
        columns[j].cells := columns[j].cells[i := rows[i].cells[j]];
        j := j + 1;
      }
    }

    /** Copies column `j` into cell `j` of every row. */
    method CopyColumn(j: nat)
      requires Valid() && j < |columns|
      requires forall k, i :: 0 <= k < |columns| && k != j && 0 <= i < |rows| ==>
        rows[i].cells[k] == columns[k].cells[i]
      modifies rows
      ensures Valid() && Mirrored()
      ensures forall k :: 0 <= k < |columns| ==> columns[k].cells == old(columns[k].cells)
    {
      var i := 0;
      while i < |rows|
        invariant 0 <= i <= |rows|
        invariant Valid()
        invariant forall k :: 0 <= k < |columns| ==> columns[k].cells == old(columns[k].cells)
        invariant forall k, r :: 0 <= k < |columns| && k != j && 0 <= r < |rows| ==>
          rows[r].cells[k] == columns[k].cells[r]
        invariant forall r :: 0 <= r < i ==> rows[r].cells[j] == columns[j].cells[r]
      {
        rows[i].cells := rows[i].cells[j := columns[j].cells[i]];
        i := i + 1;
      }
    }

    /** Row phase: each row (paired with a set) deduces from its set, then is mirrored into the columns. */
    method UpdateRows(rowSets: seq<DataSet>)
      requires Valid() && Mirrored()
      requires forall k :: 0 <= k < |rowSets| && k < |rows| ==> AllOfLength(rowSets[k].lines, |columns|)
      modifies rows, columns
      ensures Valid() && Mirrored()
      ensures CellsOf(rows) == DeduceAll(old(CellsOf(rows)), Candidates(rowSets))
    {
      ghost var before := CellsOf(rows);
      var i := 0;
      while i < |rows| && i < |rowSets|
        invariant 0 <= i <= |rows| && i <= |rowSets|
        invariant Valid() && Mirrored()
        invariant forall k :: 0 <= k < |rows| ==>
          rows[k].cells == if k < i then Deduce(before[k], rowSets[k].lines) else before[k]
      {
        rows[i].Update(rowSets[i]);
        CopyRow(i);
        i := i + 1;
      }
    }

    /** Column phase: each column (paired with a set) deduces from its set, then is mirrored into the rows. */
    method UpdateColumns(colSets: seq<DataSet>)
      requires Valid() && Mirrored()
      requires forall k :: 0 <= k < |colSets| && k < |columns| ==> AllOfLength(colSets[k].lines, |rows|)
      modifies rows, columns
      ensures Valid() && Mirrored()
      ensures CellsOf(columns) == DeduceAll(old(CellsOf(columns)), Candidates(colSets))
    {
      ghost var before := CellsOf(columns);
      var j := 0;
      while j < |columns| && j < |colSets|
        invariant 0 <= j <= |columns| && j <= |colSets|
        invariant Valid() && Mirrored()
        invariant forall k :: 0 <= k < |columns| ==>
          columns[k].cells == if k < j then Deduce(before[k], colSets[k].lines) else before[k]
      {
        columns[j].Update(colSets[j]);
        CopyColumn(j);
        j := j + 1;
      }
    }

    /**
     * `sol` is a grid of the board's shape whose every row and every column
     * has exactly the blocks its run list asks for.
     */
    ghost predicate Solves(sol: seq<seq<bool>>)
    {
      |sol| == |rows| == |rowLimits| && |columns| == |colLimits| &&
      (forall i :: 0 <= i < |sol| ==> |sol[i]| == |columns|) &&
      (forall i :: 0 <= i < |sol| ==> Blocks(sol[i]) == Required(rowLimits[i])) &&
      (forall j :: 0 <= j < |columns| ==> Blocks(Transpose(sol, |columns|)[j]) == Required(colLimits[j]))
    }

    /**
     * What the loop keeps about a solution `sol` that agreed with the
     * board: it still agrees, and its rows and columns are still candidates.
     */
    ghost predicate Tracks(rowSets: seq<DataSet>, colSets: seq<DataSet>, sol: seq<seq<bool>>)
      reads this, rows, rowSets, colSets
    {
      Solves(sol) && AgreesWith(sol, CellsOf(rows)) &&
      Contains(Candidates(rowSets), sol) && Contains(Candidates(colSets), Transpose(sol, |columns|))
    }

    /** The board is consistent and so are its possibility sets. */
    ghost predicate Loop(rowSets: seq<DataSet>, colSets: seq<DataSet>)
      reads this, rows, columns, rowSets, colSets
    {
      Valid() && Mirrored() && SetsHold(rowSets, colSets)
    }

    /** The loop's state as values: the rows and the candidates of both families of sets. */
    ghost function Snapshot(rowSets: seq<DataSet>, colSets: seq<DataSet>): Sweep
      reads this, rows, rowSets, colSets
    {
      Sweep(CellsOf(rows), Candidates(rowSets), Candidates(colSets))
    }

    /** The state of a consistent loop has the board's shape. */
    lemma LoopShaped(rowSets: seq<DataSet>, colSets: seq<DataSet>)
      requires Loop(rowSets, colSets)
      ensures Shaped(Snapshot(rowSets, colSets), |columns|)
      ensures CellsOf(columns) == Columns(CellsOf(rows), |columns|)
      ensures CellsOf(rows) == Columns(CellsOf(columns), |rows|)
      ensures Finished() == Complete(CellsOf(columns), colLimits)
    {
      MirroredCells();
      ColumnsOf(CellsOf(rows), CellsOf(columns));
    }

    /** Where the loop starts: the board's rows and the arrangements of every run list. */
    ghost function Initial(): Sweep
      reads this, rows
      requires LimitsFit()
    {
      Sweep(CellsOf(rows), AllArrangements(|columns|, rowLimits), AllArrangements(|rows|, colLimits))
    }

    /**
     * Once the board is finished, a solution that agrees with it is exactly
     * what it shows: a cell is `Full` precisely where the solution fills it.
     */
    lemma FinishedSolves(sol: seq<seq<bool>>)
      requires Valid() && Mirrored() && Solves(sol) && AgreesWith(sol, CellsOf(rows)) && Finished()
      ensures forall i, j :: 0 <= i < |rows| && 0 <= j < |columns| ==> (rows[i].cells[j] == Full <==> sol[i][j])
    {
      MirroredCells();
      AgreesTransposed(sol, CellsOf(rows), CellsOf(columns));
      var t := Transpose(sol, |columns|);
      forall j | 0 <= j < |columns|
        ensures forall i :: 0 <= i < |rows| ==> (columns[j].cells[i] == Full <==> t[j][i])
      {
        assert FullCount(columns[j].cells) == Sum(colLimits[j]);
        assert Check(t[j], CellsOf(columns)[j]);
        CountTrueIsSumOfBlocks(t[j]);
        SumRequired(colLimits[j]);
        FullCountBelow(columns[j].cells, t[j]);
      }
      forall i, j | 0 <= i < |rows| && 0 <= j < |columns|
        ensures rows[i].cells[j] == Full <==> sol[i][j]
      {
        assert t[j][i] == sol[i][j];
      }
    }

    /** A finished board admits at most one agreeing solution. */
    lemma FinishedUnique(a: seq<seq<bool>>, b: seq<seq<bool>>)
      requires Valid() && Mirrored() && Finished()
      requires Solves(a) && AgreesWith(a, CellsOf(rows)) && Solves(b) && AgreesWith(b, CellsOf(rows))
      ensures a == b
    {
      FinishedSolves(a);
      FinishedSolves(b);
      forall i | 0 <= i < |a|
        ensures a[i] == b[i]
      {
        assert forall j :: 0 <= j < |columns| ==> a[i][j] == b[i][j];
      }
    }

    /** The start of a turn: the row phase, which leaves every possibility set alone. */
    method RowTurn(rowSets: seq<DataSet>, colSets: seq<DataSet>)
      requires Loop(rowSets, colSets)
      modifies rows, columns
      ensures Loop(rowSets, colSets)
      ensures Candidates(rowSets) == old(Candidates(rowSets)) && Candidates(colSets) == old(Candidates(colSets))
      ensures CellsOf(rows) == DeduceAll(old(CellsOf(rows)), Candidates(rowSets))
    {
      UpdateRows(rowSets);
    }

    /**
     * The middle of a turn: the column sets are filtered against the
     * columns, then the column phase runs; the row sets are left alone.
     */
    method ColumnTurn(rowSets: seq<DataSet>, colSets: seq<DataSet>)
      requires Loop(rowSets, colSets)
      modifies rows, columns, colSets
      ensures Loop(rowSets, colSets)
      ensures Candidates(rowSets) == old(Candidates(rowSets))
      ensures Candidates(colSets) == FilterAll(old(Candidates(colSets)), old(CellsOf(columns)))
      ensures CellsOf(columns) == DeduceAll(old(CellsOf(columns)), Candidates(colSets))
    {
      FilterColumns(rowSets, colSets);
      ColumnPhase(rowSets, colSets);
    }

    /** The column sets filtered against the columns; the board and the row sets are left alone. */
    method FilterColumns(rowSets: seq<DataSet>, colSets: seq<DataSet>)
      requires Loop(rowSets, colSets)
      modifies colSets
      ensures Loop(rowSets, colSets)
      ensures Candidates(rowSets) == old(Candidates(rowSets))
      ensures CellsOf(columns) == old(CellsOf(columns))
      ensures Candidates(colSets) == FilterAll(old(Candidates(colSets)), CellsOf(columns))
    {
      ghost var cc0 := Candidates(colSets);
      FilterSets(colSets, columns);
      FilterAllFilters(cc0, CellsOf(columns));
      ShrinksFit(cc0, Candidates(colSets), |rows|, colLimits);
    }

    /** The column phase, which leaves every possibility set alone. */
    method ColumnPhase(rowSets: seq<DataSet>, colSets: seq<DataSet>)
      requires Loop(rowSets, colSets)
      modifies rows, columns
      ensures Loop(rowSets, colSets)
      ensures Candidates(rowSets) == old(Candidates(rowSets)) && Candidates(colSets) == old(Candidates(colSets))
      ensures CellsOf(columns) == DeduceAll(old(CellsOf(columns)), Candidates(colSets))
    {
      UpdateColumns(colSets);
    }

    /** The end of a turn: the row sets are filtered against the rows; the board is left alone. */
    method FilterRows(rowSets: seq<DataSet>, colSets: seq<DataSet>)
      requires Loop(rowSets, colSets)
      modifies rowSets
      ensures Loop(rowSets, colSets)
      ensures Candidates(colSets) == old(Candidates(colSets))
      ensures CellsOf(rows) == old(CellsOf(rows)) && Finished() == old(Finished())
      ensures Candidates(rowSets) == FilterAll(old(Candidates(rowSets)), CellsOf(rows))
    {
      ghost var rc0 := Candidates(rowSets);
      FilterSets(rowSets, rows);
      FilterAllFilters(rc0, CellsOf(rows));
      ShrinksFit(rc0, Candidates(rowSets), |columns|, rowLimits);
    }

    /**
     * The row phase of a turn, with what it keeps: a solution that agreed
     * with the board still does, and when the row sets agreed with the rows
     * no known cell changes.
     */
    method RowStep(rowSets: seq<DataSet>, colSets: seq<DataSet>, ghost sol: seq<seq<bool>>)
      requires Loop(rowSets, colSets)
      modifies rows, columns
      ensures Loop(rowSets, colSets)
      ensures Candidates(rowSets) == old(Candidates(rowSets)) && Candidates(colSets) == old(Candidates(colSets))
      ensures CellsOf(rows) == DeduceAll(old(CellsOf(rows)), Candidates(rowSets))
      ensures old(Tracks(rowSets, colSets, sol)) ==> Tracks(rowSets, colSets, sol)
      ensures old(AllFiltered(Candidates(rowSets), CellsOf(rows))) ==> Refines(old(CellsOf(rows)), CellsOf(rows))
    {
      ghost var tracking := Tracks(rowSets, colSets, sol);
      ghost var r0 := CellsOf(rows);
      ghost var rc0 := Candidates(rowSets);
      RowTurn(rowSets, colSets);
      if tracking {
        DeduceAllKeeps(r0, rc0, sol);
      }
      if AllFiltered(rc0, r0) {
        DeduceAllRefines(r0, rc0);
      }
    }

    /**
     * The column part of a turn: the column sets only lose candidates, a
     * solution that agreed with the board still does, and no known cell
     * changes.
     */
    method ColumnStep(rowSets: seq<DataSet>, colSets: seq<DataSet>, ghost sol: seq<seq<bool>>)
      requires Loop(rowSets, colSets)
      modifies rows, columns, colSets
      ensures Loop(rowSets, colSets)
      ensures Candidates(rowSets) == old(Candidates(rowSets))
      ensures Candidates(colSets) == FilterAll(old(Candidates(colSets)), old(CellsOf(columns)))
      ensures CellsOf(columns) == DeduceAll(old(CellsOf(columns)), Candidates(colSets))
      ensures Shrinks(old(Candidates(colSets)), Candidates(colSets))
      ensures old(Tracks(rowSets, colSets, sol)) ==> Tracks(rowSets, colSets, sol)
      ensures Refines(old(CellsOf(rows)), CellsOf(rows))
    {
      ghost var tracking := Tracks(rowSets, colSets, sol);
      ghost var tsol := Transpose(sol, |columns|);
      ghost var r1 := CellsOf(rows);
      ghost var c1 := CellsOf(columns);
      ghost var cc0 := Candidates(colSets);
      MirroredCells();
      if tracking {
        AgreesTransposed(sol, r1, c1);
      }
      ColumnTurn(rowSets, colSets);
      ghost var cc2 := Candidates(colSets);
      ghost var r3 := CellsOf(rows);
      ghost var c3 := CellsOf(columns);
      FilterAllFilters(cc0, c1);
      DeduceAllRefines(c1, cc2);
      MirroredCells();
      RefinesTransposed(r1, c1, r3, c3);
      if tracking {
        FilterAllKeeps(cc0, c1, tsol);
        DeduceAllKeeps(c1, cc2, tsol);
        AgreesTransposed(sol, r3, c3);
      }
    }

    /**
     * The end of a turn, with what it keeps: the row sets only lose
     * candidates and keep every row of a solution that agrees with the board.
     */
    method RowFilterStep(rowSets: seq<DataSet>, colSets: seq<DataSet>, ghost sol: seq<seq<bool>>)
      requires Loop(rowSets, colSets)
      modifies rowSets
      ensures Loop(rowSets, colSets)
      ensures Candidates(colSets) == old(Candidates(colSets))
      ensures CellsOf(rows) == old(CellsOf(rows)) && Finished() == old(Finished())
      ensures Candidates(rowSets) == FilterAll(old(Candidates(rowSets)), CellsOf(rows))
      ensures AllFiltered(Candidates(rowSets), CellsOf(rows))
      ensures Shrinks(old(Candidates(rowSets)), Candidates(rowSets))
      ensures old(Tracks(rowSets, colSets, sol)) ==> Tracks(rowSets, colSets, sol)
    {
      ghost var tracking := Tracks(rowSets, colSets, sol);
      ghost var rc0 := Candidates(rowSets);
      FilterRows(rowSets, colSets);
      FilterAllFilters(rc0, CellsOf(rows));
      if tracking {
        FilterAllKeeps(rc0, CellsOf(rows), sol);
      }
    }

    /**
     * One turn of the propagation loop: the row phase, the stop test, the
     * column sets filtered against the columns, the column phase, the stop
     * test, and the row sets filtered against the rows. The result says
     * whether the loop stops; the sets only lose candidates, a solution that
     * agreed with the board still does, and once the row sets agree with the
     * rows no known cell changes.
     */
    method Iterate(rowSets: seq<DataSet>, colSets: seq<DataSet>, ghost sol: seq<seq<bool>>) returns (done: bool)
      requires Loop(rowSets, colSets)
      modifies rows, columns, rowSets, colSets
      ensures Loop(rowSets, colSets)
      ensures done == Finished()
      ensures (Snapshot(rowSets, colSets), done) == Turn(old(Snapshot(rowSets, colSets)), |columns|, colLimits)
      ensures !done ==> AllFiltered(Candidates(rowSets), CellsOf(rows))
      ensures Shrinks(old(Candidates(rowSets)), Candidates(rowSets))
      ensures Shrinks(old(Candidates(colSets)), Candidates(colSets))
      ensures old(Tracks(rowSets, colSets, sol)) ==> Tracks(rowSets, colSets, sol)
      ensures old(AllFiltered(Candidates(rowSets), CellsOf(rows))) ==> Refines(old(CellsOf(rows)), CellsOf(rows))
    {
      ghost var s0 := Snapshot(rowSets, colSets);
      ghost var r0 := CellsOf(rows);
      ghost var rc0 := Candidates(rowSets);
      ghost var cc0 := Candidates(colSets);
      ShrinksSame(rc0);
      ShrinksSame(cc0);
      LoopShaped(rowSets, colSets);

      RowStep(rowSets, colSets, sol);
      ghost var r1 := CellsOf(rows);
      LoopShaped(rowSets, colSets);
      if Finished() {
        TurnStops(s0, |columns|, colLimits);
        return true;
      }

      ghost var c1 := CellsOf(columns);
      ColumnStep(rowSets, colSets, sol);
      ghost var r3 := CellsOf(rows);
      ghost var cc1 := Candidates(colSets);
      LoopShaped(rowSets, colSets);
      if AllFiltered(rc0, r0) {
        RefinesTrans(r0, r1, r3);
      }
      if Finished() {
        TurnStopsLater(s0, |columns|, colLimits);
        return true;
      }

      RowFilterStep(rowSets, colSets, sol);
      ShrinksTrans(rc0, rc0, Candidates(rowSets));
      TurnGoesOn(s0, |columns|, colLimits);
      return false;
    }

    /** The possibility sets the loop starts from; every line of an agreeing solution is among them. */
    method Start(ghost sol: seq<seq<bool>>) returns (rowSets: seq<DataSet>, colSets: seq<DataSet>)
      requires Valid() && Mirrored() && LimitsFit()
      ensures Loop(rowSets, colSets)
      ensures forall k :: 0 <= k < |rowSets| ==> fresh(rowSets[k])
      ensures forall k :: 0 <= k < |colSets| ==> fresh(colSets[k])
      ensures Candidates(rowSets) == AllArrangements(|columns|, rowLimits)
      ensures Candidates(colSets) == AllArrangements(|rows|, colLimits)
      ensures Solves(sol) && AgreesWith(sol, CellsOf(rows)) ==> Tracks(rowSets, colSets, sol)
    {
      rowSets, colSets := GenerateDataSet();
      if Solves(sol) {
        ArrangementsContain(|columns|, rowLimits, sol);
        ArrangementsContain(|rows|, colLimits, Transpose(sol, |columns|));
      }
    }

    /** The propagation loop on an unfinished board: turns until the stop test succeeds, for at most `fuel` turns. */
    method Propagate(rowSets: seq<DataSet>, colSets: seq<DataSet>, fuel: nat, ghost sol: seq<seq<bool>>) returns (done: bool)
      requires Loop(rowSets, colSets) && !Finished()
      modifies rows, columns, rowSets, colSets
      ensures Loop(rowSets, colSets)
      ensures done == Finished()
      ensures (Snapshot(rowSets, colSets), done) == Run(fuel, old(Snapshot(rowSets, colSets)), |columns|, colLimits)
      ensures old(Tracks(rowSets, colSets, sol)) ==> Tracks(rowSets, colSets, sol)
    {
      ghost var tracking := Tracks(rowSets, colSets, sol);
      ghost var s0 := Snapshot(rowSets, colSets);
      ghost var cur := s0;
      LoopShaped(rowSets, colSets);
      done := false;
      var remaining := fuel;
      while !done && remaining > 0
        invariant Loop(rowSets, colSets)
        invariant done == Finished()
        invariant cur == Snapshot(rowSets, colSets) && Shaped(cur, |columns|)
        invariant done ==> Run(fuel, s0, |columns|, colLimits) == (cur, true)
        invariant !done ==> Run(fuel, s0, |columns|, colLimits) == Run(remaining, cur, |columns|, colLimits)
        invariant tracking ==> Tracks(rowSets, colSets, sol)
        decreases remaining
      {
        ghost var before := cur;
        done := Iterate(rowSets, colSets, sol);
        cur := Snapshot(rowSets, colSets);
        remaining := remaining - 1;
        RunTurn(fuel, s0, remaining + 1, before, cur, done, |columns|, colLimits);
      }
    }

    /**
     * The solver on an unfinished board: enumerate the possibility sets,
     * then run the propagation loop for at most `fuel` turns.
     */
    method SolveUnfinished(fuel: nat, ghost sol: seq<seq<bool>>) returns (done: bool)
      requires Valid() && Mirrored() && LimitsFit() && !Finished()
      modifies rows, columns
      ensures Valid() && Mirrored()
      ensures done == Finished()
      ensures CellsOf(rows) == Run(fuel, old(Initial()), |columns|, colLimits).0.rows
      ensures done == Run(fuel, old(Initial()), |columns|, colLimits).1
      ensures old(Solves(sol) && AgreesWith(sol, CellsOf(rows))) ==> AgreesWith(sol, CellsOf(rows))
    {
      var rowSets, colSets := Start(sol);
      done := Propagate(rowSets, colSets, fuel, sol);
    }

    /**
     * The solver: stop at once when the board is already finished,
     * otherwise enumerate the possibility sets and run the propagation loop
     * until the stop test succeeds, for at most `fuel` turns. A solution
     * that agreed with the board at the start still agrees at the end, and
     * when the solver stops the board shows that solution.
     */
    method Solve(fuel: nat, ghost sol: seq<seq<bool>>) returns (done: bool)
      requires Valid() && Mirrored()
      requires Finished() || LimitsFit()
      modifies rows, columns
      ensures Valid() && Mirrored()
      ensures done == Finished()
      ensures old(Finished()) ==> CellsOf(rows) == old(CellsOf(rows))
      ensures !old(Finished()) ==> CellsOf(rows) == Run(fuel, old(Initial()), |columns|, colLimits).0.rows
      ensures !old(Finished()) ==> done == Run(fuel, old(Initial()), |columns|, colLimits).1
      ensures old(Solves(sol) && AgreesWith(sol, CellsOf(rows))) ==> AgreesWith(sol, CellsOf(rows))
      ensures done && old(Solves(sol) && AgreesWith(sol, CellsOf(rows))) ==>
        forall i, j :: 0 <= i < |rows| && 0 <= j < |columns| ==> (rows[i].cells[j] == Full <==> sol[i][j])
    {
      if Finished() {
        if Solves(sol) && AgreesWith(sol, CellsOf(rows)) {
          FinishedSolves(sol);
        }
        return true;
      }
      ghost var tracking := Solves(sol) && AgreesWith(sol, CellsOf(rows));
      done := SolveUnfinished(fuel, sol);
      if done && tracking {
        FinishedSolves(sol);
      }
    }
  }
}
