/**
 The update loop itself, over a mutable 2-D array: `newGrid` starts as a
 copy of the grid, the two nested loops visit the cells in row-major order,
 every neighbour count reads the unchanged previous grid, and the caller
 replaces its grid with the result only after the loop.
 */
module UpdateLoop {
  import opened Cells
  import opened Torus
  import opened Patterns
  import opened Generation
  import opened Conway

  /** The array holds exactly the cells of `cur`. */
  ghost predicate Mirrors(a: array2<int>, cur: Grid, n: nat)
    reads a
  {
    a.Length0 == n && a.Length1 == n && IsGrid(cur, n)
    && forall r, c | 0 <= r < n && 0 <= c < n :: a[r, c] == cur[r][c]
  }

  /** The array's contents as a grid. */
  function Snapshot(a: array2<int>): (g: Grid)
    reads a
    ensures |g| == a.Length0
    ensures forall r | 0 <= r < a.Length0 :: |g[r]| == a.Length1
    ensures forall r, c | 0 <= r < a.Length0 && 0 <= c < a.Length1 :: g[r][c] == a[r, c]
  {
    seq(a.Length0, r requires 0 <= r < a.Length0 reads a =>
      seq(a.Length1, c requires 0 <= c < a.Length1 reads a => a[r, c]))
  }

  /** The slice assignment `grid[i:i+3, j:j+3] = p` for a block that fits. */
  method StampInto(a: array2<int>, n: nat, p: Pattern, i: nat, j: nat, ghost cur: Grid)
    requires Mirrors(a, cur, n) && IsPattern(p) && Fits(n, i, j)
    modifies a
    ensures Mirrors(a, TryStamp(cur, n, p, i, j), n)
  {
    forall r, c | 0 <= r < 3 && 0 <= c < 3 {
      a[i + r, j + c] := p[r][c];
    }
  }

  /** Conway's rule at (i, j), decided from the previous grid, written into the array. */
  method ApplyRule(a: array2<int>, grid: Grid, n: nat, i: nat, j: nat, ghost cur: Grid)
    requires n > 0 && IsGrid(grid, n) && Mirrors(a, cur, n) && i < n && j < n
    modifies a
    ensures Mirrors(a, RuleAt(grid, cur, n, i, j), n)
  {
    var total := Count(grid, n, i, j);
    if grid[i][j] == ON {
      if total < 2 || total > 3 {
        a[i, j] := OFF;
      }
    } else {
      if total == 3 {
        a[i, j] := ON;
      }
    }
  }

  /** The mutation check at (i, j): flip the cell's current value. */
  method Mutate(a: array2<int>, n: nat, i: nat, j: nat, rdm: real, ghost cur: Grid)
    requires Mirrors(a, cur, n) && i < n && j < n
    modifies a
    ensures Mirrors(a, if IsMutationDraw(rdm) then SetCell(cur, n, i, j, Toggle(cur[i][j])) else cur, n)
  {
    if rdm < 0.00002 {
      if a[i, j] == OFF {
        a[i, j] := ON;
      } else {
        a[i, j] := OFF;
      }
    }
  }

  /** The body of the loops at cell (i, j) with draw rdm. */
  method VisitCell(a: array2<int>, grid: Grid, n: nat, i: nat, j: nat, rdm: real, ghost cur: Grid)
    requires n > 0 && IsGrid(grid, n) && Mirrors(a, cur, n) && i < n && j < n
    modifies a
    ensures Mirrors(a, ApplyCell(grid, cur, n, i, j, rdm), n)
  {
    ApplyRule(a, grid, n, i, j, cur);
    ghost var c := RuleAt(grid, cur, n, i, j);
    Mutate(a, n, i, j, rdm, c);
    c := if IsMutationDraw(rdm) then SetCell(c, n, i, j, Toggle(c[i][j])) else c;
    if rdm > 0.999995 {
      if Fits(n, i, j) {
        StampInto(a, n, Glider, i, j, c);
      }
      c := TryStamp(c, n, Glider, i, j);
    }
    if 0.5 <= rdm <= 0.50001 {
      if Fits(n, i, j) {
        StampInto(a, n, Shark, i, j, c);
      }
      c := TryStamp(c, n, Shark, i, j);
    }
    assert c == ApplyCell(grid, cur, n, i, j, rdm);
  }

  /**
   One frame, computed imperatively. The result is the row-major sweep
   Step; with no draw in any perturbation band it is the pure Conway step;
   and it keeps a grid of sentinels a grid of sentinels.
   */
  method Update(grid: Grid, n: nat, draws: Draws) returns (next: Grid)
    requires n > 0 && IsGrid(grid, n) && IsDraws(draws, n)
    ensures next == Step(grid, n, draws)
    ensures AllQuiet(draws, n) ==> next == ConwayStep(grid, n)
    ensures AllSentinel(grid, n) ==> AllSentinel(next, n)
  {
    var a := new int[n, n];
    forall r, c | 0 <= r < n && 0 <= c < n {
      a[r, c] := grid[r][c];
    }
    ghost var cur := grid;
    var i := 0;
    while i < n
      invariant 0 <= i <= n
      invariant Mirrors(a, cur, n)
      invariant Sweep(grid, cur, n, draws, i, 0) == Step(grid, n, draws)
    {
      var j := 0;
      while j < n
        invariant 0 <= j <= n
        invariant Mirrors(a, cur, n)
        invariant Sweep(grid, cur, n, draws, i, j) == Step(grid, n, draws)
      {
        ghost var before := cur;
        VisitCell(a, grid, n, i, j, draws[i][j], cur);
        cur := ApplyCell(grid, before, n, i, j, draws[i][j]);
        SweepCell(grid, before, n, draws, i, j);
        j := j + 1;
      }
      SweepRowEnd(grid, cur, n, draws, i);
      i := i + 1;
    }
    next := Snapshot(a);
    GridExt(next, cur, n);
    if AllQuiet(draws, n) {
      QuietStepIsConway(grid, n, draws);
    }
  }
}
