/**
 * Cells, candidate lines, the consistency check between them and the
 * "all candidates agree" rule that deduces cells from a candidate set.
 */
module Lines {

  /** What is known about one cell of the grid. */
  datatype Cell = Unknown | Empty | Full

  /** A candidate filling of one row or column: `true` is a filled cell. */
  type BoolLine = seq<bool>

  /** A line of `n` cells about which nothing is known yet. */
  function Unknowns(n: nat): (cells: seq<Cell>)
    ensures |cells| == n && forall p :: 0 <= p < n ==> cells[p] == Unknown
  {
    seq(n, _ => Unknown)
  }

  /** A known cell allows only its own value; an unknown one allows both. */
  predicate Admits(c: Cell, b: bool)
  {
    (c == Full ==> b) && (c == Empty ==> !b)
  }

  /**
   * Whether candidate `line` agrees with the known cells: it stops at the
   * first `Full` cell the candidate leaves empty or the first `Empty` cell it
   * fills. Lines of different lengths are a caller error.
   */
  function Check(line: BoolLine, cells: seq<Cell>): (ok: bool)
    requires |line| == |cells|
    ensures ok <==> forall p :: 0 <= p < |line| ==> Admits(cells[p], line[p])
  {
    if line == [] then true
    else if cells[0] == Full && !line[0] then false
    else if cells[0] == Empty && line[0] then false
    else Check(line[1..], cells[1..])
  }

  /** Every candidate in `lines` has value `b` at position `p`. */
  predicate AllAt(lines: seq<BoolLine>, p: nat, b: bool)
  {
    forall m :: 0 <= m < |lines| ==> p < |lines[m]| && lines[m][p] == b
  }

  /** Every candidate in `lines` has length `n`. */
  predicate AllOfLength(lines: seq<BoolLine>, n: nat)
  {
    forall m :: 0 <= m < |lines| ==> |lines[m]| == n
  }

  /**
   * Line deduction from a candidate set: a cell becomes `Full` when every
   * candidate fills it and `Empty` when every candidate leaves it empty;
   * with no candidates, or when they disagree, the cell keeps its value.
   */
  function Deduce(cells: seq<Cell>, lines: seq<BoolLine>): (r: seq<Cell>)
    ensures |r| == |cells|
  {
    seq(|cells|, p requires 0 <= p < |cells| =>
      if lines != [] && AllAt(lines, p, true) then Full
      else if lines != [] && AllAt(lines, p, false) then Empty
      else cells[p])
  }

  /**
   * Deduction writes `Full` exactly where all (at least one) candidates fill
   * the cell, `Empty` exactly where all leave it empty, never writes
   * `Unknown`, and leaves everything else, and the whole line when there
   * are no candidates, as it was.
   */
  lemma DeduceCell(cells: seq<Cell>, lines: seq<BoolLine>, p: nat)
    requires p < |cells|
    ensures lines == [] ==> Deduce(cells, lines)[p] == cells[p]
    ensures lines != [] && AllAt(lines, p, true) ==> Deduce(cells, lines)[p] == Full
    ensures lines != [] && AllAt(lines, p, false) ==> Deduce(cells, lines)[p] == Empty
    ensures !AllAt(lines, p, true) && !AllAt(lines, p, false) ==> Deduce(cells, lines)[p] == cells[p]
    ensures Deduce(cells, lines)[p] == Unknown ==> cells[p] == Unknown
  {
    if lines != [] && AllAt(lines, p, true) {
      assert lines[0][p];
    }
  }

  /** With no candidates the line is unchanged. */
  lemma DeduceNothing(cells: seq<Cell>)
    ensures Deduce(cells, []) == cells
  {
  }

  /**
   * Deduction is monotone: once a non-empty candidate set `s` agrees on
   * position `p`, deducing from any non-empty set `t` of candidates taken
   * from `s`, whatever the line looks like then, gives the same value.
   */
  lemma DeduceMonotone(cells: seq<Cell>, s: seq<BoolLine>, later: seq<Cell>, t: seq<BoolLine>, p: nat)
    requires p < |cells| && p < |later|
    requires s != [] && (AllAt(s, p, true) || AllAt(s, p, false))
    requires t != [] && forall m :: 0 <= m < |t| ==> t[m] in s
    ensures Deduce(cells, s)[p] != Unknown
    ensures Deduce(later, t)[p] == Deduce(cells, s)[p]
  {
    assert s[0][p] ==> !AllAt(s, p, false);
    var b := s[0][p];
    assert AllAt(s, p, b);
    forall m | 0 <= m < |t|
      ensures p < |t[m]| && t[m][p] == b
    {
      var k :| 0 <= k < |s| && s[k] == t[m];
    }
    assert AllAt(t, p, b);
    assert t[0][p] == b;
  }

  /**
   * Deduction never contradicts a candidate it was given: a candidate that
   * agrees with the line and belongs to the set agrees with the result.
   */
  lemma DeduceKeeps(cells: seq<Cell>, lines: seq<BoolLine>, sol: BoolLine)
    requires |sol| == |cells| && sol in lines
    requires Check(sol, cells)
    ensures Check(sol, Deduce(cells, lines))
  {
    var r := Deduce(cells, lines);
    forall p | 0 <= p < |sol|
      ensures Admits(r[p], sol[p])
    {
      var k :| 0 <= k < |lines| && lines[k] == sol;
      assert AllAt(lines, p, true) ==> lines[k][p];
      assert AllAt(lines, p, false) ==> !lines[k][p];
    }
  }

  /**
   * When every candidate agrees with the line, deduction only turns
   * `Unknown` cells into known ones: known cells keep their value.
   */
  lemma DeduceRefines(cells: seq<Cell>, lines: seq<BoolLine>)
    requires AllOfLength(lines, |cells|)
    requires forall m :: 0 <= m < |lines| ==> Check(lines[m], cells)
    ensures forall p :: 0 <= p < |cells| && cells[p] != Unknown ==> Deduce(cells, lines)[p] == cells[p]
  {
    forall p | 0 <= p < |cells| && cells[p] != Unknown
      ensures Deduce(cells, lines)[p] == cells[p]
    {
      if lines != [] {
        assert Admits(cells[p], lines[0][p]);
        if cells[p] == Full {
          assert AllAt(lines, p, true);
        } else {
          assert AllAt(lines, p, false);
        }
      }
    }
  }
}
