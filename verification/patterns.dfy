/**
 The two 3x3 patterns and the stamping of a pattern into a grid, modelled on
 numpy's slice assignment `grid[i:i+3, j:j+3] = pattern`: the assignment
 either overwrites the whole block or fails before writing anything.
 */
module Patterns {
  import opened Cells

  type Pattern = seq<seq<int>>

  predicate IsPattern(p: Pattern)
  {
    |p| == 3 && forall r | 0 <= r < 3 :: |p[r]| == 3
  }

  predicate PatternSentinel(p: Pattern)
    requires IsPattern(p)
  {
    forall r, c | 0 <= r < 3 && 0 <= c < 3 :: IsSentinel(p[r][c])
  }

  /** The glider stamped by `addGlider`. */
  const Glider: Pattern := [[OFF, OFF, ON], [ON, OFF, ON], [OFF, ON, ON]]

  /** The decorative pattern stamped by `addShark`. */
  const Shark: Pattern := [[ON, ON, OFF], [OFF, ON, OFF], [ON, OFF, OFF]]

  /** The 3x3 block with top-left (i, j) lies inside an n x n grid. */
  predicate Fits(n: nat, i: nat, j: nat)
  {
    i + 3 <= n && j + 3 <= n
  }

  predicate InBlock(a: int, b: int, i: int, j: int)
  {
    i <= a < i + 3 && j <= b < j + 3
  }

  datatype StampResult = Stamped(grid: Grid) | OutOfBounds

  /** One row of the slice assignment: columns j .. j+2 replaced by the pattern row. */
  function PatchRow(row: seq<int>, prow: seq<int>, j: nat): (r: seq<int>)
    requires |prow| == 3 && j + 3 <= |row|
    ensures |r| == |row|
    ensures forall b | 0 <= b < |row| :: r[b] == if j <= b < j + 3 then prow[b - j] else row[b]
  {
    row[..j] + prow + row[j + 3..]
  }

  /**
   Stamp pattern p with its top-left cell at (i, j). It succeeds exactly when
   the block fits; then the block holds the pattern and every other cell is
   unchanged.
   */
  function Stamp(g: Grid, n: nat, p: Pattern, i: nat, j: nat): (r: StampResult)
    requires IsGrid(g, n) && IsPattern(p)
    ensures r.Stamped? <==> Fits(n, i, j)
    ensures r.Stamped? ==> IsGrid(r.grid, n)
    ensures r.Stamped? ==> forall a, b | 0 <= a < n && 0 <= b < n ::
              r.grid[a][b] == if InBlock(a, b, i, j) then p[a - i][b - j] else g[a][b]
  {
    if Fits(n, i, j) then
      var rows := [PatchRow(g[i], p[0], j), PatchRow(g[i + 1], p[1], j), PatchRow(g[i + 2], p[2], j)];
      var h := g[..i] + rows + g[i + 3..];
      assert forall a | 0 <= a < n :: h[a] == if i <= a < i + 3 then rows[a - i] else g[a];
      Stamped(h)
    else
      OutOfBounds
  }

  /**
   The call site's `try: add...(i, j, newGrid) except Exception: pass`: a stamp
   that does not fit leaves the grid as it was.
   */
  function TryStamp(g: Grid, n: nat, p: Pattern, i: nat, j: nat): (r: Grid)
    requires IsGrid(g, n) && IsPattern(p)
    ensures IsGrid(r, n)
    ensures !Fits(n, i, j) ==> r == g
    ensures forall a, b | 0 <= a < n && 0 <= b < n ::
              r[a][b] == if Fits(n, i, j) && InBlock(a, b, i, j) then p[a - i][b - j] else g[a][b]
  {
    match Stamp(g, n, p, i, j)
    case Stamped(h) => h
    case OutOfBounds => g
  }

  /** Both built-in patterns contain only sentinel values. */
  lemma BuiltInPatternsSentinel()
    ensures IsPattern(Glider) && PatternSentinel(Glider)
    ensures IsPattern(Shark) && PatternSentinel(Shark)
  {
  }

  /** Stamping a sentinel pattern into a sentinel grid keeps every cell a sentinel. */
  lemma StampKeepsSentinels(g: Grid, n: nat, p: Pattern, i: nat, j: nat)
    requires IsGrid(g, n) && IsPattern(p) && AllSentinel(g, n) && PatternSentinel(p)
    ensures AllSentinel(TryStamp(g, n, p, i, j), n)
  {
  }

  /** A stamp whose top-left is (N-2, N-2) runs past the edge and is a no-op. */
  lemma StampNearCornerFails(g: Grid, n: nat, p: Pattern)
    requires n >= 2 && IsGrid(g, n) && IsPattern(p)
    ensures Stamp(g, n, p, n - 2, n - 2).OutOfBounds?
    ensures TryStamp(g, n, p, n - 2, n - 2) == g
  {
  }
}
