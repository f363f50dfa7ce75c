/**
 The toroidal neighbourhood: the eight neighbours of a cell are addressed
 with indices taken modulo N, and their sentinel values are summed and
 divided by ON to give a neighbour count.
 */
module Torus {
  import opened Cells

  /**
   Index wrap-around for an index at most one step outside [0, n), written
   without `%` so that proofs about the step stay linear; WrapIsMod shows it
   is the update loop's `(x) % N`.
   */
  function Wrap(x: int, n: nat): (r: nat)
    requires n > 0 && -1 <= x <= n
    ensures r < n
  {
    if x < 0 then x + n else if x >= n then x - n else x
  }

  /**
   Python's `%` rounds the quotient down and Dafny's is Euclidean; for a
   positive modulus both give the same result, and on the indices the loop
   wraps that result is Wrap's.
   */
  lemma WrapIsMod(x: int, n: nat)
    requires n > 0 && -1 <= x <= n
    ensures Wrap(x, n) == x % n
  {
  }

  /** The sum of the eight wrapped neighbours, in the order the update loop adds them. */
  function NeighbourSum(g: Grid, n: nat, i: nat, j: nat): int
    requires n > 0 && IsGrid(g, n) && i < n && j < n
  {
    var up, down := Wrap(i - 1, n), Wrap(i + 1, n);
    var left, right := Wrap(j - 1, n), Wrap(j + 1, n);
    g[i][left] + g[i][right] + g[up][j] + g[down][j]
    + g[up][left] + g[up][right] + g[down][left] + g[down][right]
  }

  /** Python's `int(...)` of an exact quotient: truncation toward zero. */
  function TruncDiv(a: int, b: int): int
    requires b > 0
  {
    if a >= 0 then a / b else -((-a) / b)
  }

  /** The neighbour total the rule reads: the wrapped sum divided by ON. */
  function Count(g: Grid, n: nat, i: nat, j: nat): int
    requires n > 0 && IsGrid(g, n) && i < n && j < n
  {
    TruncDiv(NeighbourSum(g, n, i, j), ON)
  }

  /** A step of at most one cell in one direction. */
  type Unit = x: int | -1 <= x <= 1

  /** The eight neighbour offsets (row, column) of a cell. */
  const Offsets: seq<(Unit, Unit)> :=
    [(0, -1), (0, 1), (-1, 0), (1, 0), (-1, -1), (-1, 1), (1, -1), (1, 1)]

  /** The wrapped cell at offset number k from (i, j). */
  function Neighbour(g: Grid, n: nat, i: nat, j: nat, k: nat): int
    requires n > 0 && IsGrid(g, n) && i < n && j < n && k < |Offsets|
  {
    g[Wrap(i + Offsets[k].0, n)][Wrap(j + Offsets[k].1, n)]
  }

  /** How many of the wrapped cells at the first k offsets from (i, j) are ON. */
  function LiveUpTo(g: Grid, n: nat, i: nat, j: nat, k: nat): nat
    requires n > 0 && IsGrid(g, n) && i < n && j < n && k <= |Offsets|
  {
    if k == 0 then 0 else LiveUpTo(g, n, i, j, k - 1) + Alive(Neighbour(g, n, i, j, k - 1))
  }

  /** Reference count: the number of live cells among the eight wrapped neighbours. */
  function LiveNeighbours(g: Grid, n: nat, i: nat, j: nat): nat
    requires n > 0 && IsGrid(g, n) && i < n && j < n
  {
    LiveUpTo(g, n, i, j, |Offsets|)
  }

  lemma {:induction false} LiveUpToBound(g: Grid, n: nat, i: nat, j: nat, k: nat)
    requires n > 0 && IsGrid(g, n) && i < n && j < n && k <= |Offsets|
    ensures LiveUpTo(g, n, i, j, k) <= k
  {
    if k > 0 {
      LiveUpToBound(g, n, i, j, k - 1);
    }
  }

  /** The sum of the wrapped cells at the first k offsets from (i, j). */
  function SumUpTo(g: Grid, n: nat, i: nat, j: nat, k: nat): int
    requires n > 0 && IsGrid(g, n) && i < n && j < n && k <= |Offsets|
  {
    if k == 0 then 0 else SumUpTo(g, n, i, j, k - 1) + Neighbour(g, n, i, j, k - 1)
  }

  lemma {:induction false} SumIsLive(g: Grid, n: nat, i: nat, j: nat, k: nat)
    requires n > 0 && IsGrid(g, n) && i < n && j < n && k <= |Offsets| && AllSentinel(g, n)
    ensures SumUpTo(g, n, i, j, k) == ON * LiveUpTo(g, n, i, j, k)
  {
    if k > 0 {
      SumIsLive(g, n, i, j, k - 1);
    }
  }

  /** 1 for a live cell, 0 otherwise. */
  function Alive(v: int): nat
  {
    if v == ON then 1 else 0
  }

  /** The reference count spelled out over the eight wrapped neighbours. */
  lemma LiveNeighboursUnrolled(g: Grid, n: nat, i: nat, j: nat)
    requires n > 0 && IsGrid(g, n) && i < n && j < n
    ensures var up, down := Wrap(i - 1, n), Wrap(i + 1, n);
            var left, right := Wrap(j - 1, n), Wrap(j + 1, n);
            LiveNeighbours(g, n, i, j)
              == Alive(g[i][left]) + Alive(g[i][right]) + Alive(g[up][j]) + Alive(g[down][j])
               + Alive(g[up][left]) + Alive(g[up][right]) + Alive(g[down][left]) + Alive(g[down][right])
  {
    var up, down := Wrap(i - 1, n), Wrap(i + 1, n);
    var left, right := Wrap(j - 1, n), Wrap(j + 1, n);
    assert Wrap(i, n) == i && Wrap(j, n) == j;
    assert LiveUpTo(g, n, i, j, 1) == Alive(g[i][left]);
    assert LiveUpTo(g, n, i, j, 2) == LiveUpTo(g, n, i, j, 1) + Alive(g[i][right]);
    assert LiveUpTo(g, n, i, j, 3) == LiveUpTo(g, n, i, j, 2) + Alive(g[up][j]);
    assert LiveUpTo(g, n, i, j, 4) == LiveUpTo(g, n, i, j, 3) + Alive(g[down][j]);
    assert LiveUpTo(g, n, i, j, 5) == LiveUpTo(g, n, i, j, 4) + Alive(g[up][left]);
    assert LiveUpTo(g, n, i, j, 6) == LiveUpTo(g, n, i, j, 5) + Alive(g[up][right]);
    assert LiveUpTo(g, n, i, j, 7) == LiveUpTo(g, n, i, j, 6) + Alive(g[down][left]);
    assert LiveUpTo(g, n, i, j, 8) == LiveUpTo(g, n, i, j, 7) + Alive(g[down][right]);
  }

  /** The offset-list sum is the loop's eight-term neighbour sum. */
  lemma SumUnrolled(g: Grid, n: nat, i: nat, j: nat)
    requires n > 0 && IsGrid(g, n) && i < n && j < n
    ensures SumUpTo(g, n, i, j, |Offsets|) == NeighbourSum(g, n, i, j)
  {
    var up, down := Wrap(i - 1, n), Wrap(i + 1, n);
    var left, right := Wrap(j - 1, n), Wrap(j + 1, n);
    assert Wrap(i, n) == i && Wrap(j, n) == j;
    assert SumUpTo(g, n, i, j, 1) == g[i][left];
    assert SumUpTo(g, n, i, j, 2) == SumUpTo(g, n, i, j, 1) + g[i][right];
    assert SumUpTo(g, n, i, j, 3) == SumUpTo(g, n, i, j, 2) + g[up][j];
    assert SumUpTo(g, n, i, j, 4) == SumUpTo(g, n, i, j, 3) + g[down][j];
    assert SumUpTo(g, n, i, j, 5) == SumUpTo(g, n, i, j, 4) + g[up][left];
    assert SumUpTo(g, n, i, j, 6) == SumUpTo(g, n, i, j, 5) + g[up][right];
    assert SumUpTo(g, n, i, j, 7) == SumUpTo(g, n, i, j, 6) + g[down][left];
    assert SumUpTo(g, n, i, j, 8) == SumUpTo(g, n, i, j, 7) + g[down][right];
  }

  /**
   On a grid of sentinels, the wrapped sum divided by ON is exactly the number
   of live neighbours, so the total the rule reads lies in [0, 8].
   */
  lemma CountIsLiveNeighbours(g: Grid, n: nat, i: nat, j: nat)
    requires n > 0 && IsGrid(g, n) && i < n && j < n
    requires AllSentinel(g, n)
    ensures Count(g, n, i, j) == LiveNeighbours(g, n, i, j)
    ensures 0 <= Count(g, n, i, j) <= 8
  {
    SumUnrolled(g, n, i, j);
    SumIsLive(g, n, i, j, |Offsets|);
    LiveUpToBound(g, n, i, j, |Offsets|);
  }

  /**
   Toroidal wrap-around: whether the corner (0, 0) is live changes the count
   of each of (N-1, N-1), (N-1, 0) and (0, N-1) by exactly one.
   */
  lemma CornerWraps(g: Grid, n: nat)
    requires n >= 3 && IsGrid(g, n) && AllSentinel(g, n)
    ensures var live, dead := SetCell(g, n, 0, 0, ON), SetCell(g, n, 0, 0, OFF);
            && Count(live, n, n - 1, n - 1) == Count(dead, n, n - 1, n - 1) + 1
            && Count(live, n, n - 1, 0) == Count(dead, n, n - 1, 0) + 1
            && Count(live, n, 0, n - 1) == Count(dead, n, 0, n - 1) + 1
  {
    var live, dead := SetCell(g, n, 0, 0, ON), SetCell(g, n, 0, 0, OFF);
    assert NeighbourSum(live, n, n - 1, n - 1) == NeighbourSum(dead, n, n - 1, n - 1) + ON;
    assert NeighbourSum(live, n, n - 1, 0) == NeighbourSum(dead, n, n - 1, 0) + ON;
    assert NeighbourSum(live, n, 0, n - 1) == NeighbourSum(dead, n, 0, n - 1) + ON;
  }
}
