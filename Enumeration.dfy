/**
 * The depth-first search behind the line enumerator, as recursive
 * functions over one entry of its work stack, and the proof that it
 * produces every line whose blocks are the given runs, each exactly once.
 */
module Enumeration {
  import opened Runs
  import opened Lines

  /** Every run fits in a line of `len` cells (else the start range underflows). */
  predicate Fits(len: nat, limit: seq<nat>)
  {
    forall k :: 0 <= k < |limit| ==> limit[k] <= len
  }

  /** Every run is a real block of at least one cell. */
  predicate Positive(limit: seq<nat>)
  {
    forall k :: 0 <= k < |limit| ==> limit[k] > 0
  }

  /**
   * The run lists the enumerator handles: each run fits the line, and either
   * the list is the single `[0]` meaning "no filled cell" or no run is zero.
   */
  predicate ValidLimit(len: nat, limit: seq<nat>)
  {
    Fits(len, limit) && (limit == [0] || Positive(limit))
  }

  /** The blocks a run list asks for: `[0]` asks for none. */
  function Required(limit: seq<nat>): seq<nat>
  {
    if limit == [0] then [] else limit
  }

  lemma SumRequired(limit: seq<nat>)
    ensures Sum(Required(limit)) == Sum(limit)
  {
    if limit == [0] {
      assert Sum([0]) == 0 + Sum([]);
    }
  }

  /**
   * One entry of the enumerator's work stack: the line built so far, the
   * index of the next run to place and the first cell it may start at.
   */
  datatype Node = Node(line: BoolLine, index: nat, begin: nat)

  /** The entry the enumerator starts from: an empty line, no run placed. */
  function Root(len: nat): Node
  {
    Node(Falses(len), 0, 0)
  }

  predicate WellFormed(len: nat, limit: seq<nat>, n: Node)
  {
    |n.line| == len && n.index <= |limit|
  }

  /** `line` with the `r` cells from `i` on filled. */
  function Fill(line: BoolLine, i: nat, r: nat): (filled: BoolLine)
    requires i + r <= |line|
    ensures |filled| == |line|
  {
    seq(|line|, p requires 0 <= p < |line| => if i <= p < i + r then true else line[p])
  }

  /** The entry pushed for placing the next run at cell `i`; the run after it may start one cell past its end. */
  function Child(limit: seq<nat>, n: Node, i: nat): Node
    requires n.index < |limit| && i + limit[n.index] <= |n.line|
  {
    Node(Fill(n.line, i, limit[n.index]), n.index + 1, limit[n.index] + i + 1)
  }

  /**
   * The lines the enumerator emits for entry `n`, in the order it emits
   * them: nothing once the line is used up with a run still to place; the
   * line itself once every run is placed; otherwise the lines of the
   * entries for every start of the next run, the last start first (the
   * stack pops the last entry pushed).
   */
  function Expand(len: nat, limit: seq<nat>, n: Node): (lines: seq<BoolLine>)
    requires Fits(len, limit) && WellFormed(len, limit, n)
    ensures AllOfLength(lines, len)
    decreases |limit| - n.index, len + 2
  {
    if n.begin == len && n.index != |limit| then []
    else if n.index == |limit| then [n.line]
    else Starts(len, limit, n, n.begin)
  }

  /** The lines emitted for the starts `i ..= len - run` of the next run, last start first. */
  function Starts(len: nat, limit: seq<nat>, n: Node, i: nat): (lines: seq<BoolLine>)
    requires Fits(len, limit) && WellFormed(len, limit, n) && n.index < |limit|
    ensures AllOfLength(lines, len)
    decreases |limit| - n.index, len - limit[n.index] + 1 - i
  {
    if i > len - limit[n.index] then []
    else Starts(len, limit, n, i + 1) + Expand(len, limit, Child(limit, n, i))
  }

  /** Peeling the first start off the starts from `i` on: its lines come after those of the later starts. */
  lemma StartsStep(len: nat, limit: seq<nat>, n: Node, i: nat, after: seq<BoolLine>)
    requires Fits(len, limit) && WellFormed(len, limit, n) && n.index < |limit|
    requires i <= len - limit[n.index]
    ensures Starts(len, limit, n, i) + after
      == Starts(len, limit, n, i + 1) + (Expand(len, limit, Child(limit, n, i)) + after)
    ensures StartsSize(len, limit, n, i) == StartsSize(len, limit, n, i + 1) + Size(len, limit, Child(limit, n, i))
  {
  }

  /** The number of stack entries handled for entry `n`, `n` included. */
  function Size(len: nat, limit: seq<nat>, n: Node): nat
    requires Fits(len, limit) && WellFormed(len, limit, n)
    decreases |limit| - n.index, len + 2
  {
    if n.begin == len && n.index != |limit| then 1
    else if n.index == |limit| then 1
    else 1 + StartsSize(len, limit, n, n.begin)
  }

  function StartsSize(len: nat, limit: seq<nat>, n: Node, i: nat): nat
    requires Fits(len, limit) && WellFormed(len, limit, n) && n.index < |limit|
    decreases |limit| - n.index, len - limit[n.index] + 1 - i
  {
    if i > len - limit[n.index] then 0
    else StartsSize(len, limit, n, i + 1) + Size(len, limit, Child(limit, n, i))
  }

  predicate AllWellFormed(len: nat, limit: seq<nat>, stack: seq<Node>)
  {
    forall k :: 0 <= k < |stack| ==> WellFormed(len, limit, stack[k])
  }

  /** The lines a whole stack still emits, top entry first. */
  function Pending(len: nat, limit: seq<nat>, stack: seq<Node>): seq<BoolLine>
    requires Fits(len, limit) && AllWellFormed(len, limit, stack)
  {
    if stack == [] then []
    else Expand(len, limit, stack[|stack| - 1]) + Pending(len, limit, stack[..|stack| - 1])
  }

  function PendingSize(len: nat, limit: seq<nat>, stack: seq<Node>): nat
    requires Fits(len, limit) && AllWellFormed(len, limit, stack)
  {
    if stack == [] then 0
    else Size(len, limit, stack[|stack| - 1]) + PendingSize(len, limit, stack[..|stack| - 1])
  }

  /** Popping the top entry: its lines come first, then what the rest of the stack owes. */
  lemma PendingPop(len: nat, limit: seq<nat>, stack: seq<Node>)
    requires Fits(len, limit) && AllWellFormed(len, limit, stack) && stack != []
    ensures WellFormed(len, limit, stack[|stack| - 1]) && AllWellFormed(len, limit, stack[..|stack| - 1])
    ensures Pending(len, limit, stack) == Expand(len, limit, stack[|stack| - 1]) + Pending(len, limit, stack[..|stack| - 1])
    ensures PendingSize(len, limit, stack) == Size(len, limit, stack[|stack| - 1]) + PendingSize(len, limit, stack[..|stack| - 1])
  {
  }

  /** Pushing an entry puts its lines in front of what the stack already owed. */
  lemma PendingPush(len: nat, limit: seq<nat>, stack: seq<Node>, n: Node)
    requires Fits(len, limit) && AllWellFormed(len, limit, stack) && WellFormed(len, limit, n)
    ensures AllWellFormed(len, limit, stack + [n])
    ensures Pending(len, limit, stack + [n]) == Expand(len, limit, n) + Pending(len, limit, stack)
    ensures PendingSize(len, limit, stack + [n]) == Size(len, limit, n) + PendingSize(len, limit, stack)
  {
    assert (stack + [n])[..|stack|] == stack;
  }

  // ---------------------------------------------------------------------
  // Soundness and completeness of the search

  /** An entry's line is empty from its first free cell on. */
  predicate Shape(len: nat, limit: seq<nat>, n: Node)
  {
    WellFormed(len, limit, n) &&
    forall p :: Free(len, n) <= p < len ==> !n.line[p]
  }

  /** The first cell of an entry that the search has not yet decided. */
  function Free(len: nat, n: Node): nat
  {
    if n.begin <= len then n.begin else len
  }

  /** `t` finishes entry `n`: it keeps the decided cells and the rest holds the runs still to place. */
  predicate Completes(len: nat, limit: seq<nat>, n: Node, t: BoolLine)
    requires WellFormed(len, limit, n)
  {
    var b := Free(len, n);
    |t| == len && t[..b] == n.line[..b] && Blocks(t[b..]) == limit[n.index..]
  }

  /** Where a completion of `n` starts its next run: the first filled cell from the first free one on. */
  function StartOf(len: nat, n: Node, t: BoolLine): nat
    requires |t| == len
  {
    Free(len, n) + FirstTrue(t[Free(len, n)..])
  }

  lemma ChildShape(len: nat, limit: seq<nat>, n: Node, j: nat)
    requires Fits(len, limit) && Shape(len, limit, n) && n.index < |limit|
    requires Free(len, n) <= j <= len - limit[n.index]
    ensures Shape(len, limit, Child(limit, n, j))
  {
  }

  /** A completion of the entry for start `j` has its next run starting at `j`. */
  lemma ChildStart(len: nat, limit: seq<nat>, n: Node, j: nat, t: BoolLine)
    requires Fits(len, limit) && Positive(limit) && Shape(len, limit, n) && n.index < |limit|
    requires Free(len, n) <= j <= len - limit[n.index]
    requires Completes(len, limit, Child(limit, n, j), t)
    ensures StartOf(len, n, t) == j
  {
    var b := Free(len, n);
    var c := Child(limit, n, j);
    var b' := Free(len, c);
    var s := t[b..];
    assert j < b';
    forall q | 0 <= q < j - b
      ensures !s[q]
    {
      assert t[..b'][b + q] == c.line[..b'][b + q];
    }
    assert t[..b'][j] == c.line[..b'][j];
    assert s[j - b];
  }

  /** Soundness step: a completion of a child entry completes its parent. */
  lemma ChildCompletes(len: nat, limit: seq<nat>, n: Node, j: nat, t: BoolLine)
    requires |n.line| == len && n.index < |limit| && limit[n.index] > 0
    requires forall p :: Free(len, n) <= p < len ==> !n.line[p]
    requires Free(len, n) <= j && j + limit[n.index] <= len
    requires Completes(len, limit, Child(limit, n, j), t)
    ensures Completes(len, limit, n, t)
  {
    var r := limit[n.index];
    var rest := limit[n.index + 1..];
    var e := Free(len, Child(limit, n, j));
    assert e == if j + r < len then j + r + 1 else len;
    assert Blocks(t[e..]) == rest;
    ChildCells(len, limit, n, j, t);
    BlocksBefore(t, Free(len, n), j, r, e, rest);
    assert limit[n.index..] == [r] + rest;
  }

  /** The decided cells of a child entry: those of its parent, a gap up to `j`, the run and the gap after it. */
  lemma ChildCells(len: nat, limit: seq<nat>, n: Node, j: nat, t: BoolLine)
    requires |n.line| == len && n.index < |limit|
    requires forall p :: Free(len, n) <= p < len ==> !n.line[p]
    requires Free(len, n) <= j && j + limit[n.index] <= len && |t| == len
    requires var c := Child(limit, n, j); t[..Free(len, c)] == c.line[..Free(len, c)]
    ensures t[..Free(len, n)] == n.line[..Free(len, n)]
    ensures forall p :: Free(len, n) <= p < j ==> !t[p]
    ensures forall p :: j <= p < j + limit[n.index] ==> t[p]
    ensures j + limit[n.index] < len ==> !t[j + limit[n.index]]
  {
    var c := Child(limit, n, j);
    var b' := Free(len, c);
    forall p | 0 <= p < b'
      ensures t[p] == c.line[p]
    {
      assert t[..b'][p] == c.line[..b'][p];
    }
  }

  /** Completeness step: a completion of an entry completes the child for its next run's start. */
  lemma CompletesChild(len: nat, limit: seq<nat>, n: Node, t: BoolLine)
    requires |n.line| == len && n.index < |limit|
    requires forall p :: Free(len, n) <= p < len ==> !n.line[p]
    requires Completes(len, limit, n, t)
    ensures Free(len, n) <= StartOf(len, n, t) <= len - limit[n.index]
    ensures Completes(len, limit, Child(limit, n, StartOf(len, n, t)), t)
  {
    var b := Free(len, n);
    var r := limit[n.index];
    var rest := limit[n.index + 1..];
    assert limit[n.index..] == [r] + rest;
    FirstBlockFrom(t, b, r, rest);
    var j := b + FirstTrue(t[b..]);
    assert StartOf(len, n, t) == j;
    var c := Child(limit, n, j);
    CompletesChildPrefix(len, limit, n, t, j);
    CompletesChildTail(len, t, j, r, rest);
    assert Free(len, c) == (if j + r + 1 < len then j + r + 1 else len);
    assert limit[c.index..] == rest;
    assert Completes(len, limit, c, t);
  }

  /** After a run ending at `j + r` and its gap, the remaining blocks start one cell past the run. */
  lemma CompletesChildTail(len: nat, t: BoolLine, j: nat, r: nat, rest: seq<nat>)
    requires |t| == len && j + r <= len
    requires j + r < len ==> !t[j + r]
    requires Blocks(t[j + r..]) == rest
    ensures Blocks(t[if j + r + 1 < len then j + r + 1 else len..]) == rest
  {
    if j + r < len {
      assert t[j + r..][1..] == t[j + r + 1..];
    }
  }

  /** The decided cells of the child for start `j` are those of a completion whose next run starts at `j`. */
  lemma CompletesChildPrefix(len: nat, limit: seq<nat>, n: Node, t: BoolLine, j: nat)
    requires |n.line| == len && n.index < |limit|
    requires forall p :: Free(len, n) <= p < len ==> !n.line[p]
    requires |t| == len && Free(len, n) <= j && j + limit[n.index] <= len
    requires t[..Free(len, n)] == n.line[..Free(len, n)]
    requires forall p :: Free(len, n) <= p < j ==> !t[p]
    requires forall p :: j <= p < j + limit[n.index] ==> t[p]
    requires j + limit[n.index] < len ==> !t[j + limit[n.index]]
    ensures var c := Child(limit, n, j); t[..Free(len, c)] == c.line[..Free(len, c)]
  {
    var b := Free(len, n);
    var c := Child(limit, n, j);
    var b' := Free(len, c);
    forall p | 0 <= p < b'
      ensures t[p] == c.line[p]
    {
      if p < b {
        assert t[..b][p] == n.line[..b][p];
      }
    }
  }

  /** The lines of the starts from `i` on are the completions whose next run starts in that range. */
  lemma {:induction false} StartsExact(len: nat, limit: seq<nat>, n: Node, i: nat, t: BoolLine)
    requires Fits(len, limit) && Positive(limit) && Shape(len, limit, n) && n.index < |limit|
    requires Free(len, n) <= i && |t| == len
    ensures t in Starts(len, limit, n, i) <==>
      var j := StartOf(len, n, t);
      i <= j <= len - limit[n.index] && Completes(len, limit, Child(limit, n, j), t)
    decreases |limit| - n.index, len - limit[n.index] + 1 - i
  {
    if i <= len - limit[n.index] {
      StartsExact(len, limit, n, i + 1, t);
      ChildShape(len, limit, n, i);
      ExpandExact(len, limit, Child(limit, n, i), t);
      if Completes(len, limit, Child(limit, n, i), t) {
        ChildStart(len, limit, n, i, t);
      }
    }
  }

  /** The lines emitted for an entry are exactly its completions. */
  lemma {:induction false} ExpandExact(len: nat, limit: seq<nat>, n: Node, t: BoolLine)
    requires Fits(len, limit) && Positive(limit) && Shape(len, limit, n) && |t| == len
    ensures t in Expand(len, limit, n) <==> Completes(len, limit, n, t)
    decreases |limit| - n.index, len + 2
  {
    var b := Free(len, n);
    if n.begin == len && n.index != |limit| {
      assert t[b..] == [];
    } else if n.index == |limit| {
      BlocksEmpty(t[b..]);
      if Completes(len, limit, n, t) {
        assert t == n.line by {
          forall p | 0 <= p < len
            ensures t[p] == n.line[p]
          {
            if p < b {
              assert t[..b][p] == n.line[..b][p];
            } else {
              assert t[b..][p - b] == t[p];
            }
          }
        }
      }
    } else {
      if Completes(len, limit, n, t) {
        CompletesChild(len, limit, n, t);
      }
      if n.begin <= len {
        StartsExact(len, limit, n, n.begin, t);
        var j := StartOf(len, n, t);
        if n.begin <= j <= len - limit[n.index] && Completes(len, limit, Child(limit, n, j), t) {
          ChildCompletes(len, limit, n, j, t);
        }
      }
    }
  }

  /** No line is emitted twice. */
  predicate Distinct(lines: seq<BoolLine>)
  {
    forall a, b :: 0 <= a < b < |lines| ==> lines[a] != lines[b]
  }

  lemma DistinctAppend(x: seq<BoolLine>, y: seq<BoolLine>)
    requires Distinct(x) && Distinct(y)
    requires forall t :: t in x ==> t !in y
    ensures Distinct(x + y)
  {
    forall a, b | 0 <= a < b < |x + y|
      ensures (x + y)[a] != (x + y)[b]
    {
      if a < |x| && |x| <= b {
        assert (x + y)[a] in x && (x + y)[b] == y[b - |x|];
      }
    }
  }

  lemma {:induction false} StartsDistinct(len: nat, limit: seq<nat>, n: Node, i: nat)
    requires Fits(len, limit) && Positive(limit) && Shape(len, limit, n) && n.index < |limit|
    requires Free(len, n) <= i
    ensures Distinct(Starts(len, limit, n, i))
    decreases |limit| - n.index, len - limit[n.index] + 1 - i
  {
    if i <= len - limit[n.index] {
      var c := Child(limit, n, i);
      StartsDistinct(len, limit, n, i + 1);
      ChildShape(len, limit, n, i);
      ExpandDistinct(len, limit, c);
      forall t | t in Starts(len, limit, n, i + 1)
        ensures t !in Expand(len, limit, c)
      {
        StartsExact(len, limit, n, i + 1, t);
        ExpandExact(len, limit, c, t);
        if Completes(len, limit, c, t) {
          ChildStart(len, limit, n, i, t);
        }
      }
      DistinctAppend(Starts(len, limit, n, i + 1), Expand(len, limit, c));
    }
  }

  lemma {:induction false} ExpandDistinct(len: nat, limit: seq<nat>, n: Node)
    requires Fits(len, limit) && Positive(limit) && Shape(len, limit, n)
    ensures Distinct(Expand(len, limit, n))
    decreases |limit| - n.index, len + 2
  {
    if !(n.begin == len && n.index != |limit|) && n.index != |limit| {
      if n.begin <= len {
        StartsDistinct(len, limit, n, n.begin);
      } else {
        assert Starts(len, limit, n, n.begin) == [];
      }
    }
  }

  /**
   * The search from the root emits every line of `len` cells whose blocks
   * are `limit`, only those, and each once; none when the runs cannot fit.
   */
  lemma Enumerates(len: nat, limit: seq<nat>)
    requires Fits(len, limit) && Positive(limit)
    ensures forall t :: t in Expand(len, limit, Root(len)) <==> |t| == len && Blocks(t) == limit
    ensures Distinct(Expand(len, limit, Root(len)))
    ensures MinLength(limit) > len ==> Expand(len, limit, Root(len)) == []
  {
    var root := Root(len);
    forall t
      ensures t in Expand(len, limit, root) <==> |t| == len && Blocks(t) == limit
    {
      if |t| == len {
        ExpandExact(len, limit, root, t);
        assert t[0..] == t;
      }
    }
    ExpandDistinct(len, limit, root);
    if MinLength(limit) > len && Expand(len, limit, root) != [] {
      var t := Expand(len, limit, root)[0];
      BlocksFit(t);
    }
  }
}
