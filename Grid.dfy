/**
 * Whole grids as values: the row and column views of a grid, the phase
 * functions that deduce or filter every line at once, and the relations
 * the propagation loop keeps between successive grids and candidate sets.
 */
module Grids {
  import opened Runs
  import opened Lines
  import opened Enumeration
  import opened LineSolver

  /**
   * The columns of a grid given row by row: cell `i` of column `j` is cell
   * `j` of row `i` (rows too short to reach column `j` read as empty).
   */
  function Transpose(grid: seq<seq<bool>>, width: nat): (t: seq<seq<bool>>)
    ensures |t| == width
    ensures forall j :: 0 <= j < width ==> |t[j]| == |grid|
    ensures forall j, i :: 0 <= j < width && 0 <= i < |grid| && j < |grid[i]| ==> t[j][i] == grid[i][j]
  {
    seq(width, j requires 0 <= j < width =>
      seq(|grid|, i requires 0 <= i < |grid| => if j < |grid[i]| then grid[i][j] else false))
  }

  /** `c` holds the columns of `r`: cell `j` of line `i` of `r` is cell `i` of line `j` of `c`. */
  ghost predicate Transposed(r: seq<seq<Cell>>, c: seq<seq<Cell>>)
  {
    (forall i :: 0 <= i < |r| ==> |r[i]| == |c|) &&
    (forall j :: 0 <= j < |c| ==> |c[j]| == |r|) &&
    forall i, j :: 0 <= i < |r| && 0 <= j < |c| ==> r[i][j] == c[j][i]
  }

  /**
   * The column view of a grid of cells given row by row: cell `i` of
   * column `j` is cell `j` of row `i` (rows too short read as unknown).
   */
  function Columns(g: seq<seq<Cell>>, width: nat): (t: seq<seq<Cell>>)
    ensures |t| == width
    ensures forall j :: 0 <= j < width ==> |t[j]| == |g|
    ensures forall j, i :: 0 <= j < width && 0 <= i < |g| && j < |g[i]| ==> t[j][i] == g[i][j]
  {
    seq(width, j requires 0 <= j < width =>
      seq(|g|, i requires 0 <= i < |g| => if j < |g[i]| then g[i][j] else Unknown))
  }

  /** Two views that mirror each other are each the column view of the other. */
  lemma ColumnsOf(r: seq<seq<Cell>>, c: seq<seq<Cell>>)
    requires Transposed(r, c)
    ensures c == Columns(r, |c|) && r == Columns(c, |r|)
  {
    var t := Columns(r, |c|);
    forall j | 0 <= j < |c|
      ensures t[j] == c[j]
    {
      assert forall i :: 0 <= i < |r| ==> t[j][i] == c[j][i];
    }
    var u := Columns(c, |r|);
    forall i | 0 <= i < |r|
      ensures u[i] == r[i]
    {
      assert forall j :: 0 <= j < |c| ==> u[i][j] == r[i][j];
    }
  }

  /** A grid whose lines all have `width` cells mirrors its column view. */
  lemma ColumnsTransposed(g: seq<seq<Cell>>, width: nat)
    requires forall i :: 0 <= i < |g| ==> |g[i]| == width
    ensures Transposed(g, Columns(g, width))
  {
  }

  /** Every candidate `sol[k]` agrees with the known cells of line `g[k]`. */
  ghost predicate AgreesWith(sol: seq<seq<bool>>, g: seq<seq<Cell>>)
  {
    |sol| == |g| &&
    forall k :: 0 <= k < |g| ==> |sol[k]| == |g[k]| && Check(sol[k], g[k])
  }

  /** Every candidate left in `c[k]` agrees with the known cells of line `g[k]`. */
  ghost predicate AllFiltered(c: seq<seq<BoolLine>>, g: seq<seq<Cell>>)
  {
    forall k :: 0 <= k < |c| && k < |g| ==>
      AllOfLength(c[k], |g[k]|) && forall m :: 0 <= m < |c[k]| ==> Check(c[k][m], g[k])
  }

  /** Line `sol[k]` is still among the candidates `c[k]`. */
  ghost predicate Contains(c: seq<seq<BoolLine>>, sol: seq<seq<bool>>)
  {
    forall k :: 0 <= k < |c| && k < |sol| ==> sol[k] in c[k]
  }

  /** Both grids have the same shape and every cell known in `before` has the same value in `after`. */
  ghost predicate Refines(before: seq<seq<Cell>>, after: seq<seq<Cell>>)
  {
    |before| == |after| &&
    (forall i :: 0 <= i < |before| ==> |before[i]| == |after[i]|) &&
    forall i, j :: 0 <= i < |before| && 0 <= j < |before[i]| && before[i][j] != Unknown ==>
      after[i][j] == before[i][j]
  }

  /** Each set in `after` holds only candidates its counterpart in `before` held. */
  ghost predicate Shrinks(before: seq<seq<BoolLine>>, after: seq<seq<BoolLine>>)
  {
    |before| == |after| && forall k, t :: 0 <= k < |after| && t in after[k] ==> t in before[k]
  }

  /** Every family of sets shrinks to itself. */
  lemma ShrinksSame(c: seq<seq<BoolLine>>)
    ensures Shrinks(c, c)
  {
  }

  /** Shrinking twice is shrinking. */
  lemma ShrinksTrans(a: seq<seq<BoolLine>>, b: seq<seq<BoolLine>>, c: seq<seq<BoolLine>>)
    requires Shrinks(a, b) && Shrinks(b, c)
    ensures Shrinks(a, c)
  {
  }

  /** Refining twice is refining. */
  lemma RefinesTrans(a: seq<seq<Cell>>, b: seq<seq<Cell>>, c: seq<seq<Cell>>)
    requires Refines(a, b) && Refines(b, c)
    ensures Refines(a, c)
  {
  }

  /**
   * One candidate set per run list, every candidate of `len` cells and
   * with exactly the blocks its run list asks for.
   */
  ghost predicate SetsFit(c: seq<seq<BoolLine>>, len: nat, limits: seq<seq<nat>>)
  {
    |c| == |limits| &&
    (forall k :: 0 <= k < |c| ==> AllOfLength(c[k], len)) &&
    (forall k, t :: 0 <= k < |c| && t in c[k] ==> Blocks(t) == Required(limits[k]))
  }

  /** `lines` holds exactly the lines of `len` cells whose blocks are the ones `limit` asks for. */
  ghost predicate Lists(lines: seq<BoolLine>, len: nat, limit: seq<nat>)
  {
    AllOfLength(lines, len) &&
    forall t :: t in lines <==> |t| == len && Blocks(t) == Required(limit)
  }

  /** One set per run list, each listing every line its run list allows. */
  ghost predicate AllListed(c: seq<seq<BoolLine>>, len: nat, limits: seq<seq<nat>>)
  {
    |c| == |limits| && forall k :: 0 <= k < |c| ==> Lists(c[k], len, limits[k])
  }

  /**
   * Sets listing every line their run lists allow fit those run lists, and
   * contain every line of a grid whose lines obey them.
   */
  lemma ListedFit(c: seq<seq<BoolLine>>, len: nat, limits: seq<seq<nat>>, sol: seq<seq<bool>>)
    requires AllListed(c, len, limits)
    ensures SetsFit(c, len, limits)
    ensures |sol| == |limits| && (forall k :: 0 <= k < |sol| ==> |sol[k]| == len && Blocks(sol[k]) == Required(limits[k])) ==>
      Contains(c, sol)
  {
  }

  /** The sets the loop starts from: the arrangements of every run list, in order. */
  function AllArrangements(len: nat, limits: seq<seq<nat>>): (c: seq<seq<BoolLine>>)
    requires forall k :: 0 <= k < |limits| ==> ValidLimit(len, limits[k])
    ensures |c| == |limits| && forall k :: 0 <= k < |c| ==> AllOfLength(c[k], len)
    decreases |limits|
  {
    if limits == [] then []
    else AllArrangements(len, limits[..|limits| - 1]) + [Arrangements(len, limits[|limits| - 1])]
  }

  /** The arrangements of a longer prefix of run lists extend those of the shorter one. */
  lemma AllArrangementsAppend(len: nat, limits: seq<seq<nat>>, n: nat)
    requires forall k :: 0 <= k < |limits| ==> ValidLimit(len, limits[k])
    requires n < |limits|
    ensures AllArrangements(len, limits[..n + 1]) ==
      AllArrangements(len, limits[..n]) + [Arrangements(len, limits[n])]
  {
    assert limits[..n + 1][..n] == limits[..n];
    assert limits[..n + 1][n] == limits[n];
  }

  /** Set `k` of the starting sets holds the arrangements of run list `k`. */
  lemma {:induction false} AllArrangementsAt(len: nat, limits: seq<seq<nat>>, k: nat)
    requires forall k :: 0 <= k < |limits| ==> ValidLimit(len, limits[k])
    requires k < |limits|
    ensures AllArrangements(len, limits)[k] == Arrangements(len, limits[k])
    decreases |limits|
  {
    var m := |limits| - 1;
    if k < m {
      var prefix := limits[..m];
      AllArrangementsAt(len, prefix, k);
      assert prefix[k] == limits[k];
    }
  }

  /** The starting sets list, for every run list, every line it allows. */
  lemma ArrangementsListed(len: nat, limits: seq<seq<nat>>)
    requires forall k :: 0 <= k < |limits| ==> ValidLimit(len, limits[k])
    ensures AllListed(AllArrangements(len, limits), len, limits)
  {
    var c := AllArrangements(len, limits);
    forall k | 0 <= k < |c|
      ensures Lists(c[k], len, limits[k])
    {
      AllArrangementsAt(len, limits, k);
      ArrangementsExact(len, limits[k]);
    }
  }

  /** Every line of a grid whose lines obey their run lists is among the starting sets. */
  lemma ArrangementsContain(len: nat, limits: seq<seq<nat>>, sol: seq<seq<bool>>)
    requires forall k :: 0 <= k < |limits| ==> ValidLimit(len, limits[k])
    requires |sol| == |limits|
    requires forall k :: 0 <= k < |sol| ==> |sol[k]| == len && Blocks(sol[k]) == Required(limits[k])
    ensures Contains(AllArrangements(len, limits), sol)
  {
    ArrangementsListed(len, limits);
    ListedFit(AllArrangements(len, limits), len, limits, sol);
  }

  /** A deduction phase: line `k` deduces from set `k`; lines without a set stay as they are. */
  function DeduceAll(g: seq<seq<Cell>>, c: seq<seq<BoolLine>>): (r: seq<seq<Cell>>)
    ensures |r| == |g| && forall k :: 0 <= k < |g| ==> |r[k]| == |g[k]|
  {
    seq(|g|, k requires 0 <= k < |g| => if k < |c| then Deduce(g[k], c[k]) else g[k])
  }

  /** A filtering phase: set `k` keeps the candidates that agree with line `k`; sets without a line stay. */
  function FilterAll(c: seq<seq<BoolLine>>, g: seq<seq<Cell>>): (r: seq<seq<BoolLine>>)
    requires forall k :: 0 <= k < |c| && k < |g| ==> AllOfLength(c[k], |g[k]|)
    ensures |r| == |c|
  {
    seq(|c|, k requires 0 <= k < |c| => if k < |g| then Filter(c[k], g[k]) else c[k])
  }

  /** Sets filtered one by one against the lines of the same index make up the filtering phase. */
  lemma FilterAllOf(c: seq<seq<BoolLine>>, g: seq<seq<Cell>>, d: seq<seq<BoolLine>>)
    requires forall k :: 0 <= k < |c| && k < |g| ==> AllOfLength(c[k], |g[k]|)
    requires |d| == |c| && forall k :: 0 <= k < |d| ==> d[k] == if k < |g| then Filter(c[k], g[k]) else c[k]
    ensures d == FilterAll(c, g)
  {
  }

  /** A deduction phase never contradicts a solution whose lines are still candidates. */
  lemma DeduceAllKeeps(g: seq<seq<Cell>>, c: seq<seq<BoolLine>>, sol: seq<seq<bool>>)
    requires AgreesWith(sol, g) && Contains(c, sol)
    ensures AgreesWith(sol, DeduceAll(g, c))
  {
    var r := DeduceAll(g, c);
    forall k | 0 <= k < |g|
      ensures Check(sol[k], r[k])
    {
      if k < |c| {
        DeduceKeeps(g[k], c[k], sol[k]);
      }
    }
  }

  /** After a filtering phase a deduction phase only turns unknown cells into known ones. */
  lemma DeduceAllRefines(g: seq<seq<Cell>>, c: seq<seq<BoolLine>>)
    requires AllFiltered(c, g)
    ensures Refines(g, DeduceAll(g, c))
  {
    var r := DeduceAll(g, c);
    forall k | 0 <= k < |g| && k < |c|
      ensures forall j :: 0 <= j < |g[k]| && g[k][j] != Unknown ==> r[k][j] == g[k][j]
    {
      DeduceRefines(g[k], c[k]);
    }
  }

  /** A filtering phase leaves only agreeing candidates and only candidates that were there. */
  lemma FilterAllFilters(c: seq<seq<BoolLine>>, g: seq<seq<Cell>>)
    requires forall k :: 0 <= k < |c| && k < |g| ==> AllOfLength(c[k], |g[k]|)
    ensures AllFiltered(FilterAll(c, g), g)
    ensures Shrinks(c, FilterAll(c, g))
  {
    var r := FilterAll(c, g);
    forall k, m | 0 <= k < |r| && k < |g| && 0 <= m < |r[k]|
      ensures Check(r[k][m], g[k])
    {
      assert r[k][m] in r[k];
    }
  }

  /** A filtering phase keeps every line of a solution that agrees with the grid. */
  lemma FilterAllKeeps(c: seq<seq<BoolLine>>, g: seq<seq<Cell>>, sol: seq<seq<bool>>)
    requires forall k :: 0 <= k < |c| && k < |g| ==> AllOfLength(c[k], |g[k]|)
    requires AgreesWith(sol, g) && Contains(c, sol)
    ensures Contains(FilterAll(c, g), sol)
  {
    var r := FilterAll(c, g);
    forall k | 0 <= k < |r| && k < |sol|
      ensures sol[k] in r[k]
    {
      assert Check(sol[k], g[k]);
    }
  }

  /** Candidate sets that only lose candidates keep fitting their run lists. */
  lemma ShrinksFit(c: seq<seq<BoolLine>>, d: seq<seq<BoolLine>>, len: nat, limits: seq<seq<nat>>)
    requires SetsFit(c, len, limits) && Shrinks(c, d)
    ensures SetsFit(d, len, limits)
  {
    forall k, m | 0 <= k < |d| && 0 <= m < |d[k]|
      ensures |d[k][m]| == len
    {
      assert d[k][m] in d[k];
      var n :| 0 <= n < |c[k]| && c[k][n] == d[k][m];
    }
  }

  /** Refinement seen through the columns is refinement of the rows. */
  lemma RefinesTransposed(r0: seq<seq<Cell>>, c0: seq<seq<Cell>>, r1: seq<seq<Cell>>, c1: seq<seq<Cell>>)
    requires Transposed(r0, c0) && Transposed(r1, c1) && |r0| == |r1|
    requires Refines(c0, c1)
    ensures Refines(r0, r1)
  {
    forall i, j | 0 <= i < |r0| && 0 <= j < |r0[i]| && r0[i][j] != Unknown
      ensures r1[i][j] == r0[i][j]
    {
      assert c0[j][i] == r0[i][j];
    }
  }

  /** A grid agrees with the row view exactly when its columns agree with the column view. */
  lemma AgreesTransposed(sol: seq<seq<bool>>, r: seq<seq<Cell>>, c: seq<seq<Cell>>)
    requires Transposed(r, c)
    requires |sol| == |r| && forall i :: 0 <= i < |sol| ==> |sol[i]| == |c|
    ensures AgreesWith(sol, r) <==> AgreesWith(Transpose(sol, |c|), c)
  {
    var t := Transpose(sol, |c|);
    if AgreesWith(sol, r) {
      forall j | 0 <= j < |c|
        ensures Check(t[j], c[j])
      {
        forall i | 0 <= i < |r|
          ensures Admits(c[j][i], t[j][i])
        {
          assert Admits(r[i][j], sol[i][j]);
        }
      }
    }
    if AgreesWith(t, c) {
      forall i | 0 <= i < |r|
        ensures Check(sol[i], r[i])
      {
        forall j | 0 <= j < |c|
          ensures Admits(r[i][j], sol[i][j])
        {
          assert Admits(c[j][i], t[j][i]);
        }
      }
    }
  }

  /** Number of `Full` cells of a line. */
  function FullCount(cells: seq<Cell>): (n: nat)
    ensures n <= |cells|
    ensures n == 0 <==> forall i :: 0 <= i < |cells| ==> cells[i] != Full
  {
    if cells == [] then 0 else (if cells[0] == Full then 1 else 0) + FullCount(cells[1..])
  }

  /**
   * The stop test on the column view: every column that has a run list has
   * as many `Full` cells as its runs add up to.
   */
  ghost predicate Complete(cols: seq<seq<Cell>>, limits: seq<seq<nat>>)
    ensures Complete(cols, limits) ==>
      forall j :: 0 <= j < |cols| && j < |limits| ==> Sum(limits[j]) <= |cols[j]|
  {
    forall j :: 0 <= j < |cols| && j < |limits| ==> FullCount(cols[j]) == Sum(limits[j])
  }

  /**
   * A line never has more `Full` cells than a candidate it agrees with has
   * filled cells, and when the counts are equal its `Full` cells are exactly
   * the candidate's filled cells.
   */
  lemma {:induction false} FullCountBelow(cells: seq<Cell>, sol: seq<bool>)
    requires |sol| == |cells| && Check(sol, cells)
    ensures FullCount(cells) <= CountTrue(sol)
    ensures FullCount(cells) == CountTrue(sol) ==>
      forall p :: 0 <= p < |sol| ==> (cells[p] == Full <==> sol[p])
    decreases |cells|
  {
    if cells != [] {
      FullCountBelow(cells[1..], sol[1..]);
      if FullCount(cells) == CountTrue(sol) {
        forall p | 0 <= p < |sol|
          ensures cells[p] == Full <==> sol[p]
        {
          if p > 0 {
            assert cells[1..][p - 1] == cells[p] && sol[1..][p - 1] == sol[p];
          }
        }
      }
    }
  }

  /**
   * What the propagation loop carries from one turn to the next: the grid
   * row by row and the candidate sets of the rows and of the columns.
   */
  datatype Sweep = Sweep(rows: seq<seq<Cell>>, rowSets: seq<seq<BoolLine>>, colSets: seq<seq<BoolLine>>)

  /** Rows and row candidates have `width` cells; column candidates have one cell per row. */
  ghost predicate Shaped(s: Sweep, width: nat)
  {
    (forall i :: 0 <= i < |s.rows| ==> |s.rows[i]| == width) &&
    (forall k :: 0 <= k < |s.rowSets| ==> AllOfLength(s.rowSets[k], width)) &&
    (forall k :: 0 <= k < |s.colSets| ==> AllOfLength(s.colSets[k], |s.rows|))
  }

  /**
   * One turn of the propagation loop on values: the rows deduce from their
   * sets and the turn stops if the columns are complete; otherwise the
   * column sets are filtered against the columns, the columns deduce from
   * them and the turn stops if the columns are complete; otherwise the row
   * sets are filtered against the rows. The flag says that the turn
   * stopped, which happens exactly when the columns it leaves are complete.
   */
  ghost function Turn(s: Sweep, width: nat, colLimits: seq<seq<nat>>): (r: (Sweep, bool))
    requires Shaped(s, width)
    ensures Shaped(r.0, width) && |r.0.rows| == |s.rows|
    ensures r.1 <==> Complete(Columns(r.0.rows, width), colLimits)
  {
    var rows1 := DeduceAll(s.rows, s.rowSets);
    var cols1 := Columns(rows1, width);
    if Complete(cols1, colLimits) then
      (Sweep(rows1, s.rowSets, s.colSets), true)
    else
      var colSets := FilterAll(s.colSets, cols1);
      var cols2 := DeduceAll(cols1, colSets);
      var rows2 := Columns(cols2, |s.rows|);
      ColumnsTransposed(cols2, |s.rows|);
      ColumnsOf(cols2, rows2);
      if Complete(cols2, colLimits) then
        (Sweep(rows2, s.rowSets, colSets), true)
      else
        (Sweep(rows2, FilterAll(s.rowSets, rows2), colSets), false)
  }

  /** At most `fuel` turns from `s`, ending with the first turn that stops. */
  ghost function Run(fuel: nat, s: Sweep, width: nat, colLimits: seq<seq<nat>>): (r: (Sweep, bool))
    requires Shaped(s, width)
    ensures Shaped(r.0, width) && |r.0.rows| == |s.rows|
    ensures r.1 ==> Complete(Columns(r.0.rows, width), colLimits)
    decreases fuel
  {
    if fuel == 0 then (s, false)
    else
      var t := Turn(s, width, colLimits);
      if t.1 then t else Run(fuel - 1, t.0, width, colLimits)
  }

  /** A turn whose row phase completes the columns stops there. */
  lemma TurnStops(s: Sweep, width: nat, colLimits: seq<seq<nat>>)
    requires Shaped(s, width)
    requires Complete(Columns(DeduceAll(s.rows, s.rowSets), width), colLimits)
    ensures Turn(s, width, colLimits) == (Sweep(DeduceAll(s.rows, s.rowSets), s.rowSets, s.colSets), true)
  {
  }

  /** A turn whose column phase completes the columns stops there. */
  lemma TurnStopsLater(s: Sweep, width: nat, colLimits: seq<seq<nat>>)
    requires Shaped(s, width)
    requires var cols1 := Columns(DeduceAll(s.rows, s.rowSets), width);
      !Complete(cols1, colLimits) &&
      Complete(DeduceAll(cols1, FilterAll(s.colSets, cols1)), colLimits)
    ensures var cols1 := Columns(DeduceAll(s.rows, s.rowSets), width);
      var colSets := FilterAll(s.colSets, cols1);
      Turn(s, width, colLimits) == (Sweep(Columns(DeduceAll(cols1, colSets), |s.rows|), s.rowSets, colSets), true)
  {
  }

  /** A turn that completes the columns in neither phase filters the row sets and goes on. */
  lemma TurnGoesOn(s: Sweep, width: nat, colLimits: seq<seq<nat>>)
    requires Shaped(s, width)
    requires var cols1 := Columns(DeduceAll(s.rows, s.rowSets), width);
      !Complete(cols1, colLimits) &&
      !Complete(DeduceAll(cols1, FilterAll(s.colSets, cols1)), colLimits)
    ensures var cols1 := Columns(DeduceAll(s.rows, s.rowSets), width);
      var colSets := FilterAll(s.colSets, cols1);
      var rows2 := Columns(DeduceAll(cols1, colSets), |s.rows|);
      Turn(s, width, colLimits) == (Sweep(rows2, FilterAll(s.rowSets, rows2), colSets), false)
  {
  }

  /**
   * What a run from `start` still owes after one more turn: when the run so
   * far has reached `before` with `fuel` left, and the turn from `before`
   * gives `after`, the run ends at `after` if the turn stops, and otherwise
   * continues from `after` with one turn less.
   */
  lemma RunTurn(total: nat, start: Sweep, fuel: nat, before: Sweep, after: Sweep, stop: bool,
                width: nat, colLimits: seq<seq<nat>>)
    requires Shaped(start, width) && Shaped(before, width) && fuel > 0
    requires Run(total, start, width, colLimits) == Run(fuel, before, width, colLimits)
    requires (after, stop) == Turn(before, width, colLimits)
    ensures Shaped(after, width)
    ensures stop ==> Run(total, start, width, colLimits) == (after, true)
    ensures !stop ==> Run(total, start, width, colLimits) == Run(fuel - 1, after, width, colLimits)
  {
  }
}
