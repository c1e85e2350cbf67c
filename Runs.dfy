/**
 * The run-length view of a line of booleans: the lengths of its maximal
 * blocks of `true`, left to right. This is the specification the line
 * enumerator is proved against.
 */
module Runs {

  /** A line of `n` cells, none filled. */
  function Falses(n: nat): (s: seq<bool>)
    ensures |s| == n && forall p :: 0 <= p < n ==> !s[p]
  {
    seq(n, _ => false)
  }

  /** A line of `n` cells, all filled. */
  function Trues(n: nat): (s: seq<bool>)
    ensures |s| == n && forall p :: 0 <= p < n ==> s[p]
  {
    seq(n, _ => true)
  }

  /** Number of `true` cells at the front of `s`. */
  function LeadingTrue(s: seq<bool>): (n: nat)
    ensures n <= |s|
    ensures forall p :: 0 <= p < n ==> s[p]
    ensures n < |s| ==> !s[n]
  {
    if s == [] || !s[0] then 0 else 1 + LeadingTrue(s[1..])
  }

  /** Index of the first `true` cell of `s`, or `|s|` when there is none. */
  function FirstTrue(s: seq<bool>): (k: nat)
    ensures k <= |s|
    ensures forall p :: 0 <= p < k ==> !s[p]
    ensures k < |s| ==> s[k]
  {
    if s == [] || s[0] then 0 else 1 + FirstTrue(s[1..])
  }

  /** The lengths of the maximal blocks of `true` in `s`, in order. */
  function Blocks(s: seq<bool>): (runs: seq<nat>)
    ensures forall k :: 0 <= k < |runs| ==> runs[k] > 0
    decreases |s|
  {
    if s == [] then []
    else if !s[0] then Blocks(s[1..])
    else
      var n := LeadingTrue(s);
      [n] + Blocks(s[n..])
  }

  function Sum(xs: seq<nat>): nat
  {
    if xs == [] then 0 else xs[0] + Sum(xs[1..])
  }

  /** Number of filled cells of `s`. */
  function CountTrue(s: seq<bool>): nat
  {
    if s == [] then 0 else (if s[0] then 1 else 0) + CountTrue(s[1..])
  }

  /** The shortest line that can hold `runs`: the runs plus one gap between neighbours. */
  function MinLength(runs: seq<nat>): nat
  {
    if runs == [] then 0 else Sum(runs) + |runs| - 1
  }

  /** A line has no blocks exactly when no cell of it is filled. */
  lemma {:induction false} BlocksEmpty(s: seq<bool>)
    ensures Blocks(s) == [] <==> forall p :: 0 <= p < |s| ==> !s[p]
    decreases |s|
  {
    if s != [] && !s[0] {
      BlocksEmpty(s[1..]);
      assert forall p :: 1 <= p < |s| ==> s[p] == s[1..][p - 1];
    }
  }

  /** Leading empty cells do not change the block decomposition. */
  lemma {:induction false} BlocksAfterFalses(k: nat, s: seq<bool>)
    ensures Blocks(Falses(k) + s) == Blocks(s)
  {
    if k > 0 {
      var t := Falses(k) + s;
      assert t != [] && !t[0];
      assert t[1..] == Falses(k - 1) + s;
      BlocksAfterFalses(k - 1, s);
    } else {
      assert Falses(k) + s == s;
    }
  }

  /** A block of `r > 0` filled cells followed by a gap (or by nothing) is one run. */
  lemma {:induction false} BlocksAfterTrues(r: nat, s: seq<bool>)
    requires r > 0
    requires s == [] || !s[0]
    ensures Blocks(Trues(r) + s) == [r] + Blocks(s)
  {
    var t := Trues(r) + s;
    LeadingTrueOfBlock(r, s);
    assert t[r..] == s;
  }

  lemma {:induction false} LeadingTrueOfBlock(r: nat, s: seq<bool>)
    requires s == [] || !s[0]
    ensures LeadingTrue(Trues(r) + s) == r
  {
    if r > 0 {
      assert (Trues(r) + s)[1..] == Trues(r - 1) + s;
      LeadingTrueOfBlock(r - 1, s);
    }
  }

  /**
   * The first run of a line: `FirstTrue(s)` empty cells, then `r` filled cells,
   * then a gap or the end of the line, and the remaining runs after it.
   */
  lemma {:induction false} FirstBlock(s: seq<bool>, r: nat, rest: seq<nat>)
    requires Blocks(s) == [r] + rest
    ensures var k := FirstTrue(s);
      && k + r <= |s|
      && (forall p :: k <= p < k + r ==> s[p])
      && (k + r < |s| ==> !s[k + r])
      && Blocks(s[k + r..]) == rest
    decreases |s|
  {
    if !s[0] {
      FirstBlock(s[1..], r, rest);
      var k := FirstTrue(s[1..]);
      assert FirstTrue(s) == k + 1;
      assert forall p :: k + 1 <= p < k + 1 + r ==> s[p] == s[1..][p - 1];
      assert s[1..][k + r..] == s[k + 1 + r..];
    } else {
      assert FirstTrue(s) == 0;
      var n := LeadingTrue(s);
      assert [n] + Blocks(s[n..]) == [r] + rest;
      assert ([n] + Blocks(s[n..]))[0] == n && ([r] + rest)[0] == r;
      assert ([n] + Blocks(s[n..]))[1..] == Blocks(s[n..]) && ([r] + rest)[1..] == rest;
    }
  }

  /** `FirstBlock` for the part of `t` from cell `b` on, stated in positions of `t`. */
  lemma FirstBlockFrom(t: seq<bool>, b: nat, r: nat, rest: seq<nat>)
    requires b <= |t| && Blocks(t[b..]) == [r] + rest
    ensures var j := b + FirstTrue(t[b..]);
      && j + r <= |t|
      && (forall p :: b <= p < j ==> !t[p])
      && (forall p :: j <= p < j + r ==> t[p])
      && (j + r < |t| ==> !t[j + r])
      && Blocks(t[j + r..]) == rest
  {
    var s := t[b..];
    FirstBlock(s, r, rest);
    var k := FirstTrue(s);
    assert forall p :: b <= p < |t| ==> t[p] == s[p - b];
    assert s[k + r..] == t[b + k + r..];
  }

  /**
   * The converse of `FirstBlockFrom`: empty cells from `b` to `j`, a run of
   * `r` filled cells at `j` and a gap (or the end) make `r` the first block
   * from `b` on, followed by the blocks after the gap.
   */
  lemma BlocksAt(t: seq<bool>, b: nat, j: nat, r: nat)
    requires b <= j && j + r <= |t| && r > 0
    requires forall p :: b <= p < j ==> !t[p]
    requires forall p :: j <= p < j + r ==> t[p]
    requires j + r < |t| ==> !t[j + r]
    ensures Blocks(t[b..]) == [r] + Blocks(t[if j + r < |t| then j + r + 1 else |t|..])
  {
    var tail := t[j + r..];
    assert t[b..] == Falses(j - b) + (Trues(r) + tail);
    BlocksAfterFalses(j - b, Trues(r) + tail);
    BlocksAfterTrues(r, tail);
    if j + r < |t| {
      assert tail == [tail[0]] + t[j + r + 1..];
      assert Blocks(tail) == Blocks(t[j + r + 1..]);
    } else {
      assert tail == [] && t[|t|..] == [];
    }
  }

  /** `BlocksAt` with the blocks after the gap given as `rest`. */
  lemma BlocksBefore(t: seq<bool>, b: nat, j: nat, r: nat, e: nat, rest: seq<nat>)
    requires b <= j && j + r <= |t| && r > 0
    requires forall p :: b <= p < j ==> !t[p]
    requires forall p :: j <= p < j + r ==> t[p]
    requires j + r < |t| ==> !t[j + r]
    requires e == (if j + r < |t| then j + r + 1 else |t|) && Blocks(t[e..]) == rest
    ensures Blocks(t[b..]) == [r] + rest
  {
    BlocksAt(t, b, j, r);
  }

  lemma {:induction false} CountTrueAppend(a: seq<bool>, b: seq<bool>)
    ensures CountTrue(a + b) == CountTrue(a) + CountTrue(b)
    decreases |a|
  {
    if a == [] {
      assert a + b == b;
    } else {
      assert (a + b)[1..] == a[1..] + b;
      CountTrueAppend(a[1..], b);
    }
  }

  lemma {:induction false} CountTrueOfTrues(s: seq<bool>)
    requires forall p :: 0 <= p < |s| ==> s[p]
    ensures CountTrue(s) == |s|
    decreases |s|
  {
    if s != [] {
      CountTrueOfTrues(s[1..]);
    }
  }

  /** The filled cells of a line are exactly the cells of its runs. */
  lemma {:induction false} CountTrueIsSumOfBlocks(s: seq<bool>)
    ensures CountTrue(s) == Sum(Blocks(s))
    decreases |s|
  {
    if s == [] {
    } else if !s[0] {
      CountTrueIsSumOfBlocks(s[1..]);
    } else {
      var n := LeadingTrue(s);
      assert s == s[..n] + s[n..];
      CountTrueAppend(s[..n], s[n..]);
      CountTrueOfTrues(s[..n]);
      CountTrueIsSumOfBlocks(s[n..]);
    }
  }

  /** A line is at least as long as its runs plus one gap between each two of them. */
  lemma {:induction false} BlocksFit(s: seq<bool>)
    ensures MinLength(Blocks(s)) <= |s|
    decreases |s|
  {
    if s == [] {
    } else if !s[0] {
      BlocksFit(s[1..]);
    } else {
      var n := LeadingTrue(s);
      var t := s[n..];
      var b := Blocks(t);
      assert Blocks(s) == [n] + b;
      assert ([n] + b)[1..] == b;
      if t != [] {
        assert !t[0];
        assert t[1..] == s[n + 1..];
        BlocksFit(s[n + 1..]);
      } else {
        assert b == [];
        assert Blocks(s) == [n];
        assert Sum([n]) == n + Sum([]);
      }
    }
  }
}
