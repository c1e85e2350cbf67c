/**
 * One row or column of the puzzle: its known cells (`CellLine`) and its
 * possibility set (`DataSet`), every candidate line still compatible with
 * the line's runs and with the known cells.
 */
module LineSolver {
  import opened Runs
  import opened Lines
  import opened Enumeration

  /** `a` is `b` with some elements left out and the rest in their order. */
  ghost predicate IsSubsequence(a: seq<BoolLine>, b: seq<BoolLine>)
    decreases |b|
  {
    if a == [] then true
    else if b == [] then false
    else (a[0] == b[0] && IsSubsequence(a[1..], b[1..])) || IsSubsequence(a, b[1..])
  }

  /** The candidates that pass `Check` against `cells`, in their order. */
  function Filter(lines: seq<BoolLine>, cells: seq<Cell>): (kept: seq<BoolLine>)
    requires AllOfLength(lines, |cells|)
    ensures AllOfLength(kept, |cells|)
    ensures forall l :: l in kept <==> l in lines && Check(l, cells)
    ensures IsSubsequence(kept, lines)
    decreases |lines|
  {
    if lines == [] then []
    else
      var rest := Filter(lines[1..], cells);
      if Check(lines[0], cells) then
        assert ([lines[0]] + rest)[1..] == rest;
        [lines[0]] + rest
      else rest
  }

  /**
   * Filtering keeps every copy of a candidate that passes and no copy of
   * one that fails: repeated candidates are kept as often as they occur.
   */
  lemma {:induction false} FilterCounts(lines: seq<BoolLine>, cells: seq<Cell>, l: BoolLine)
    requires AllOfLength(lines, |cells|)
    ensures multiset(Filter(lines, cells))[l] ==
      if |l| == |cells| && Check(l, cells) then multiset(lines)[l] else 0
    decreases |lines|
  {
    if lines != [] {
      FilterCounts(lines[1..], cells, l);
      assert lines == [lines[0]] + lines[1..];
      if Check(lines[0], cells) {
        assert Filter(lines, cells) == [lines[0]] + Filter(lines[1..], cells);
      }
    }
  }

  /** Filtering drops nothing from a set whose candidates all pass. */
  lemma {:induction false} FilterKeepsAll(lines: seq<BoolLine>, cells: seq<Cell>)
    requires AllOfLength(lines, |cells|)
    requires forall m :: 0 <= m < |lines| ==> Check(lines[m], cells)
    ensures Filter(lines, cells) == lines
    decreases |lines|
  {
    if lines != [] {
      FilterKeepsAll(lines[1..], cells);
    }
  }

  /** Filtering twice against the same cells is filtering once. */
  lemma FilterTwice(lines: seq<BoolLine>, cells: seq<Cell>)
    requires AllOfLength(lines, |cells|)
    ensures Filter(Filter(lines, cells), cells) == Filter(lines, cells)
  {
    var kept := Filter(lines, cells);
    forall m | 0 <= m < |kept|
      ensures Check(kept[m], cells)
    {
      assert kept[m] in kept;
    }
    FilterKeepsAll(kept, cells);
  }

  /** A copy of `line` whose `r` cells from `i` on are set, one at a time. */
  method FillRun(line: BoolLine, i: nat, r: nat) returns (newLine: BoolLine)
    requires i + r <= |line|
    ensures |newLine| == |line|
    ensures forall p :: 0 <= p < |line| ==> newLine[p] == (i <= p < i + r || line[p])
    ensures newLine == Fill(line, i, r)
  {
    newLine := line;
    var j := 0;
    while j < r
      invariant 0 <= j <= r
      invariant newLine == Fill(line, i, j)
    {
      newLine := newLine[i + j := true];
      j := j + 1;
    }
  }

  /**
   * Pushes one entry per start of the next run of `n`, leftmost start
   * first, so the stack owes the lines of every start, rightmost first,
   * before what it owed already.
   */
  method PushStarts(len: nat, limit: seq<nat>, n: Node, frontier: seq<Node>) returns (stack: seq<Node>)
    requires Fits(len, limit) && WellFormed(len, limit, n) && n.index < |limit|
    requires AllWellFormed(len, limit, frontier)
    ensures AllWellFormed(len, limit, stack)
    ensures Pending(len, limit, stack) == Starts(len, limit, n, n.begin) + Pending(len, limit, frontier)
    ensures PendingSize(len, limit, stack) == StartsSize(len, limit, n, n.begin) + PendingSize(len, limit, frontier)
  {
    stack := frontier;
    var r := limit[n.index];
    var i := n.begin;
    while i <= len - r
      invariant AllWellFormed(len, limit, stack)
      invariant Starts(len, limit, n, i) + Pending(len, limit, stack)
        == Starts(len, limit, n, n.begin) + Pending(len, limit, frontier)
      invariant PendingSize(len, limit, stack) + StartsSize(len, limit, n, i)
        == StartsSize(len, limit, n, n.begin) + PendingSize(len, limit, frontier)
      decreases len - r + 1 - i
    {
      var newLine := FillRun(n.line, i, r);
      var child := Node(newLine, n.index + 1, r + i + 1);
      assert child == Child(limit, n, i);
      PendingPush(len, limit, stack, child);
      StartsStep(len, limit, n, i, Pending(len, limit, stack));
      stack := stack + [child];
      i := i + 1;
    }
  }

  /**
   * The depth-first search of the line enumerator: pop an entry; drop it
   * when its line is used up with runs left, emit its line when every run is
   * placed, and otherwise push one entry per start of the next run.
   */
  method Search(len: nat, limit: seq<nat>) returns (result: seq<BoolLine>)
    requires Fits(len, limit) && Positive(limit)
    ensures result == Expand(len, limit, Root(len))
    ensures forall t :: t in result <==> |t| == len && Blocks(t) == limit
    ensures Distinct(result)
    ensures MinLength(limit) > len ==> result == []
  {
    var boolLine := Falses(len);
    ghost var root := Root(len);
    result := [];
    var frontier := [Node(boolLine, 0, 0)];
    assert frontier[..0] == [];
    while frontier != []
      invariant AllWellFormed(len, limit, frontier)
      invariant result + Pending(len, limit, frontier) == Expand(len, limit, root)
      decreases PendingSize(len, limit, frontier)
    {
      var n := frontier[|frontier| - 1];
      PendingPop(len, limit, frontier);
      frontier := frontier[..|frontier| - 1];
      if n.begin == len && n.index != |limit| {
        // a run is left to place but no cell is left to place it in
      } else if n.index == |limit| {
        result := result + [n.line];
      } else {
        frontier := PushStarts(len, limit, n, frontier);
      }
    }
    Enumerates(len, limit);
  }

  /** The single empty line is the only line of `len` cells without blocks. */
  lemma NoBlocks(len: nat)
    ensures forall t :: t in [Falses(len)] <==> |t| == len && Blocks(t) == []
  {
    forall t
      ensures t in [Falses(len)] <==> |t| == len && Blocks(t) == []
    {
      BlocksEmpty(t);
      if |t| == len && Blocks(t) == [] {
        assert t == Falses(len);
      }
    }
  }

  /**
   * The candidates a possibility set starts with: `[0]` gives the single
   * empty line, any other run list the lines of the search, in its order.
   */
  function Arrangements(len: nat, limit: seq<nat>): (lines: seq<BoolLine>)
    requires ValidLimit(len, limit)
    ensures AllOfLength(lines, len)
  {
    if limit == [0] then [Falses(len)] else Expand(len, limit, Root(len))
  }

  /**
   * The arrangements of a run list are exactly the lines of `len` cells
   * with the blocks it asks for, each once; none when the runs cannot fit.
   */
  lemma ArrangementsExact(len: nat, limit: seq<nat>)
    requires ValidLimit(len, limit)
    ensures forall t :: t in Arrangements(len, limit) <==> |t| == len && Blocks(t) == Required(limit)
    ensures Distinct(Arrangements(len, limit))
    ensures MinLength(limit) > len ==> Arrangements(len, limit) == []
  {
    if limit == [0] {
      assert MinLength(limit) == 0 by {
        assert Sum(limit) == 0 + Sum([]);
      }
      NoBlocks(len);
    } else {
      Enumerates(len, limit);
    }
  }

  class DataSet {
    var lines: seq<BoolLine>

    /**
     * All lines of `len` cells whose blocks are the runs of `limit`, found by
     * a depth-first search over an explicit stack of partial lines; `[0]`
     * gives the single empty line.
     */
    constructor (len: nat, limit: seq<nat>)
      requires ValidLimit(len, limit)
      ensures lines == Arrangements(len, limit)
      ensures AllOfLength(lines, len)
      ensures forall t :: t in lines <==> |t| == len && Blocks(t) == Required(limit)
      ensures Distinct(lines)
      ensures MinLength(limit) > len ==> lines == []
      ensures limit == [0] ==> lines == [Falses(len)]
      ensures limit != [0] ==> lines == Expand(len, limit, Root(len))
    {
      ArrangementsExact(len, limit);
      if |limit| == 1 && limit[0] == 0 {
        assert limit == [0];
        lines := [Falses(len)];
      } else {
        var result := Search(len, limit);
        lines := result;
      }
    }

    /** Drops the candidates that contradict the known cells of `cellLine`. */
    method Update(cellLine: CellLine)
      requires AllOfLength(lines, |cellLine.cells|)
      modifies this
      ensures lines == Filter(old(lines), cellLine.cells)
    {
      lines := Filter(lines, cellLine.cells);
    }
  }

  class CellLine {
    var cells: seq<Cell>

    /** A line of `len` unknown cells. */
    constructor (len: nat)
      ensures cells == Unknowns(len)
    {
      cells := Unknowns(len);
    }

    /**
     * Line deduction: one pass over the candidates records, per cell,
     * whether no candidate fills it (`empties`) and whether none leaves it
     * empty (`fulls`); a second pass writes `Empty` or `Full` where exactly
     * one of the two holds.
     */
    method Update(dataSet: DataSet)
      requires AllOfLength(dataSet.lines, |cells|)
      modifies this
      ensures cells == Deduce(old(cells), dataSet.lines)
    {
      var len := |cells|;
      var lines := dataSet.lines;
      var empties := Trues(len);
      var fulls := Trues(len);
      var k := 0;
      while k < |lines|
        invariant 0 <= k <= |lines|
        invariant |empties| == len && |fulls| == len
        invariant forall p :: 0 <= p < len ==> empties[p] == AllAt(lines[..k], p, false)
        invariant forall p :: 0 <= p < len ==> fulls[p] == AllAt(lines[..k], p, true)
      {
        var line := lines[k];
        var i := 0;
        while i < |line|
          invariant 0 <= i <= len
          invariant |empties| == len && |fulls| == len
          invariant forall p :: 0 <= p < len ==>
            empties[p] == (AllAt(lines[..k], p, false) && (p < i ==> !line[p]))
          invariant forall p :: 0 <= p < len ==>
            fulls[p] == (AllAt(lines[..k], p, true) && (p < i ==> line[p]))
        {
          if line[i] {
            empties := empties[i := false];
          } else {
            fulls := fulls[i := false];
          }
          i := i + 1;
        }
        assert lines[..k + 1] == lines[..k] + [line];
        k := k + 1;
      }
      assert lines[..k] == lines;
      var i := 0;
      while i < len
        invariant 0 <= i <= len
        invariant |cells| == len
        invariant forall p :: 0 <= p < i ==> cells[p] == Deduce(old(cells), lines)[p]
        invariant forall p :: i <= p < len ==> cells[p] == old(cells)[p]
      {
        if lines != [] {
          assert AllAt(lines, i, true) ==> !AllAt(lines, i, false) by {
            assert lines[0][i] || !lines[0][i];
          }
        }
        if empties[i] && !fulls[i] {
          cells := cells[i := Empty];
        } else if !empties[i] && fulls[i] {
          cells := cells[i := Full];
        }
        i := i + 1;
      }
    }
  }
}
