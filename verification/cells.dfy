/**
 Cell values, square grids and the row-major visiting order shared by the
 whole model of the Game of Life step.
 */
module Cells {

  /** The two sentinel values a cell holds; they double as grayscale intensities. */
  const ON: int := 255
  const OFF: int := 0

  predicate IsSentinel(v: int)
  {
    v == ON || v == OFF
  }

  /** A grid is indexed g[row][column]; the model always carries its size n. */
  type Grid = seq<seq<int>>

  predicate IsGrid(g: Grid, n: nat)
  {
    |g| == n && forall i | 0 <= i < n :: |g[i]| == n
  }

  predicate AllSentinel(g: Grid, n: nat)
    requires IsGrid(g, n)
  {
    forall i, j | 0 <= i < n && 0 <= j < n :: IsSentinel(g[i][j])
  }

  /** Cell (a, b) is visited strictly before cell (i, j) by a row-major sweep. */
  predicate Before(a: int, b: int, i: int, j: int)
  {
    a < i || (a == i && b < j)
  }

  /** Two grids of the same size that agree on every cell are equal. */
  lemma GridExt(x: Grid, y: Grid, n: nat)
    requires IsGrid(x, n) && IsGrid(y, n)
    requires forall a, b | 0 <= a < n && 0 <= b < n :: x[a][b] == y[a][b]
    ensures x == y
  {
    forall a | 0 <= a < n
      ensures x[a] == y[a]
    {
      assert forall b | 0 <= b < n :: x[a][b] == y[a][b];
    }
  }

  /** Write one cell, as `newGrid[i, j] = v` does. */
  function SetCell(g: Grid, n: nat, i: nat, j: nat, v: int): (r: Grid)
    requires IsGrid(g, n) && i < n && j < n
    ensures IsGrid(r, n)
    ensures r[i][j] == v
    ensures forall a, b | 0 <= a < n && 0 <= b < n && (a != i || b != j) :: r[a][b] == g[a][b]
  {
    g[i := g[i][j := v]]
  }

  /** The mutation's flip: OFF becomes ON, anything else becomes OFF. */
  function Toggle(v: int): int
  {
    if v == OFF then ON else OFF
  }

  /** On sentinel cells the mutation is a true flip, and flipping twice restores the cell. */
  lemma ToggleFlips(v: int)
    requires IsSentinel(v)
    ensures IsSentinel(Toggle(v)) && Toggle(v) != v
    ensures Toggle(Toggle(v)) == v
  {
  }
}
