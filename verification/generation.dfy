/**
 One frame of the simulation as the update loop computes it: the cells are
 visited in row-major order; at each cell the Conway rule (decided from the
 previous grid) is written into the new grid, and then the cell's single
 random draw may flip the cell, stamp a glider or stamp a shark there. The
 draws are an input: one real number per cell.
 */
module Generation {
  import opened Cells
  import opened Conway
  import opened Patterns

  type Draws = seq<seq<real>>

  predicate IsDraws(draws: Draws, n: nat)
  {
    |draws| == n && forall i | 0 <= i < n :: |draws[i]| == n
  }

  /** The three bands of the per-cell draw, checked in this order. */
  predicate IsMutationDraw(d: real) { d < 0.00002 }
  predicate IsGliderDraw(d: real) { d > 0.999995 }
  predicate IsSharkDraw(d: real) { 0.5 <= d <= 0.50001 }

  /** A draw that triggers no perturbation. */
  predicate Quiet(d: real)
  {
    !IsMutationDraw(d) && !IsGliderDraw(d) && !IsSharkDraw(d)
  }

  /** The bands are pairwise disjoint: at most one perturbation fires per cell. */
  lemma BandsDisjoint(d: real)
    ensures !(IsMutationDraw(d) && IsGliderDraw(d))
    ensures !(IsMutationDraw(d) && IsSharkDraw(d))
    ensures !(IsGliderDraw(d) && IsSharkDraw(d))
  {
  }

  /** The rule's write (or non-write) for cell (i, j) of the new grid `cur`. */
  function RuleAt(prev: Grid, cur: Grid, n: nat, i: nat, j: nat): (r: Grid)
    requires n > 0 && IsGrid(prev, n) && IsGrid(cur, n) && i < n && j < n
    ensures IsGrid(r, n)
    ensures r[i][j] == NextCell(prev, n, i, j, cur[i][j])
    ensures forall a, b | 0 <= a < n && 0 <= b < n && (a != i || b != j) :: r[a][b] == cur[a][b]
  {
    match RuleFor(prev, n, i, j)
    case Write(w) => SetCell(cur, n, i, j, w)
    case Keep => cur
  }

  /**
   Everything the loop body does at cell (i, j) with draw d: the rule, then
   the mutation, glider and shark checks in that order, each acting on the
   new grid as the previous ones left it. Only the 3x3 block whose top-left
   is (i, j) can change, and sentinel grids stay sentinel grids.
   */
  function ApplyCell(prev: Grid, cur: Grid, n: nat, i: nat, j: nat, d: real): (r: Grid)
    requires n > 0 && IsGrid(prev, n) && IsGrid(cur, n) && i < n && j < n
    ensures IsGrid(r, n)
    ensures AllSentinel(cur, n) ==> AllSentinel(r, n)
    ensures forall a, b | 0 <= a < n && 0 <= b < n && !InBlock(a, b, i, j) :: r[a][b] == cur[a][b]
  {
    BuiltInPatternsSentinel();
    var ruled := RuleAt(prev, cur, n, i, j);
    var mutated := if IsMutationDraw(d) then SetCell(ruled, n, i, j, Toggle(ruled[i][j])) else ruled;
    var withGlider := if IsGliderDraw(d) then TryStamp(mutated, n, Glider, i, j) else mutated;
    if IsSharkDraw(d) then TryStamp(withGlider, n, Shark, i, j) else withGlider
  }

  /**
   The rest of the sweep from cell (i, j) onward, applied to the new grid
   `cur`; (i, n) stands for the end of row i.
   */
  function Sweep(prev: Grid, cur: Grid, n: nat, draws: Draws, i: nat, j: nat): (r: Grid)
    requires n > 0 && IsGrid(prev, n) && IsGrid(cur, n) && IsDraws(draws, n)
    requires i <= n && j <= n
    ensures IsGrid(r, n)
    ensures AllSentinel(cur, n) ==> AllSentinel(r, n)
    decreases n - i, n - j
  {
    if i == n then cur
    else if j == n then Sweep(prev, cur, n, draws, i + 1, 0)
    else Sweep(prev, ApplyCell(prev, cur, n, i, j, draws[i][j]), n, draws, i, j + 1)
  }

  /**
   One frame: the new grid starts as a copy of the previous one, and every
   neighbour count reads the previous grid. If every cell starts as a
   sentinel, every cell is still one afterwards.
   */
  function Step(g: Grid, n: nat, draws: Draws): (r: Grid)
    requires n > 0 && IsGrid(g, n) && IsDraws(draws, n)
    ensures IsGrid(r, n)
    ensures AllSentinel(g, n) ==> AllSentinel(r, n)
  {
    Sweep(g, g, n, draws, 0, 0)
  }

  // ---------------------------------------------------------------------
  // Relating the sweep to the pure Conway step

  /** Cell (a, b) lies in the row-major range [(s0, s1), (p, q)). */
  predicate InRange(a: int, b: int, s0: int, s1: int, p: int, q: int)
  {
    !Before(a, b, s0, s1) && Before(a, b, p, q)
  }

  /** The grid `base` with the rule applied over it at the cells of [(s0, s1), (p, q)). */
  function Overlay(prev: Grid, base: Grid, n: nat, s0: nat, s1: nat, p: nat, q: nat): (r: Grid)
    requires n > 0 && IsGrid(prev, n) && IsGrid(base, n)
    ensures IsGrid(r, n)
  {
    seq(n, a requires 0 <= a < n => seq(n, b requires 0 <= b < n =>
      if InRange(a, b, s0, s1, p, q) then NextCell(prev, n, a, b, base[a][b]) else base[a][b]))
  }

  predicate QuietBetween(draws: Draws, n: nat, p: nat, q: nat, i: nat, j: nat)
    requires IsDraws(draws, n)
  {
    forall a, b | 0 <= a < n && 0 <= b < n && InRange(a, b, p, q, i, j) :: Quiet(draws[a][b])
  }

  predicate AllQuiet(draws: Draws, n: nat)
    requires IsDraws(draws, n)
  {
    forall a, b | 0 <= a < n && 0 <= b < n :: Quiet(draws[a][b])
  }

  /** Every draw except the one at (i, j) is quiet. */
  predicate QuietExcept(draws: Draws, n: nat, i: nat, j: nat)
    requires IsDraws(draws, n)
  {
    forall a, b | 0 <= a < n && 0 <= b < n && (a != i || b != j) :: Quiet(draws[a][b])
  }

  lemma OverlayEmpty(prev: Grid, base: Grid, n: nat, s0: nat, s1: nat)
    requires n > 0 && IsGrid(prev, n) && IsGrid(base, n)
    ensures Overlay(prev, base, n, s0, s1, s0, s1) == base
  {
    GridExt(Overlay(prev, base, n, s0, s1, s0, s1), base, n);
  }

  lemma OverlayRowEnd(prev: Grid, base: Grid, n: nat, s0: nat, s1: nat, p: nat)
    requires n > 0 && IsGrid(prev, n) && IsGrid(base, n)
    ensures Overlay(prev, base, n, s0, s1, p, n) == Overlay(prev, base, n, s0, s1, p + 1, 0)
  {
    GridExt(Overlay(prev, base, n, s0, s1, p, n), Overlay(prev, base, n, s0, s1, p + 1, 0), n);
  }

  /** A quiet cell extends the overlaid range by one cell. */
  lemma QuietCell(prev: Grid, base: Grid, n: nat, s0: nat, s1: nat, p: nat, q: nat, d: real)
    requires n > 0 && IsGrid(prev, n) && IsGrid(base, n)
    requires p < n && q < n && !Before(p, q, s0, s1) && Quiet(d)
    ensures ApplyCell(prev, Overlay(prev, base, n, s0, s1, p, q), n, p, q, d)
         == Overlay(prev, base, n, s0, s1, p, q + 1)
  {
    var cur := Overlay(prev, base, n, s0, s1, p, q);
    var l := ApplyCell(prev, cur, n, p, q, d);
    var r := Overlay(prev, base, n, s0, s1, p, q + 1);
    assert l == RuleAt(prev, cur, n, p, q);
    forall a, b | 0 <= a < n && 0 <= b < n
      ensures l[a][b] == r[a][b]
    {
      if a == p && b == q {
        assert cur[a][b] == base[a][b];
      }
    }
    GridExt(l, r, n);
  }

  lemma SweepRowEnd(prev: Grid, cur: Grid, n: nat, draws: Draws, p: nat)
    requires n > 0 && IsGrid(prev, n) && IsGrid(cur, n) && IsDraws(draws, n) && p < n
    ensures Sweep(prev, cur, n, draws, p, n) == Sweep(prev, cur, n, draws, p + 1, 0)
  {
  }

  lemma SweepCell(prev: Grid, cur: Grid, n: nat, draws: Draws, p: nat, q: nat)
    requires n > 0 && IsGrid(prev, n) && IsGrid(cur, n) && IsDraws(draws, n) && p < n && q < n
    ensures Sweep(prev, cur, n, draws, p, q)
         == Sweep(prev, ApplyCell(prev, cur, n, p, q, draws[p][q]), n, draws, p, q + 1)
  {
  }

  /** The sweep from (p, q) onward, started from the rule overlaid on [(s0, s1), (p, q)). */
  function Run(prev: Grid, base: Grid, n: nat, draws: Draws, s0: nat, s1: nat, p: nat, q: nat): Grid
    requires n > 0 && IsGrid(prev, n) && IsGrid(base, n) && IsDraws(draws, n) && p <= n && q <= n
  {
    Sweep(prev, Overlay(prev, base, n, s0, s1, p, q), n, draws, p, q)
  }

  lemma RunRowEnd(prev: Grid, base: Grid, n: nat, draws: Draws, s0: nat, s1: nat, p: nat)
    requires n > 0 && IsGrid(prev, n) && IsGrid(base, n) && IsDraws(draws, n) && p < n
    ensures Run(prev, base, n, draws, s0, s1, p, n) == Run(prev, base, n, draws, s0, s1, p + 1, 0)
  {
    OverlayRowEnd(prev, base, n, s0, s1, p);
    SweepRowEnd(prev, Overlay(prev, base, n, s0, s1, p, n), n, draws, p);
  }

  lemma RunQuietCell(prev: Grid, base: Grid, n: nat, draws: Draws, s0: nat, s1: nat, p: nat, q: nat)
    requires n > 0 && IsGrid(prev, n) && IsGrid(base, n) && IsDraws(draws, n)
    requires p < n && q < n && !Before(p, q, s0, s1) && Quiet(draws[p][q])
    ensures Run(prev, base, n, draws, s0, s1, p, q) == Run(prev, base, n, draws, s0, s1, p, q + 1)
  {
    QuietCell(prev, base, n, s0, s1, p, q, draws[p][q]);
    SweepCell(prev, Overlay(prev, base, n, s0, s1, p, q), n, draws, p, q);
  }

  /**
   A chain of equalities along the row-major order: if every step from a
   cell of [(p, q), (i, j)) to the next cell, and from the end of each row to
   the start of the next, preserves f, then f agrees at both ends.
   */
  lemma {:induction false} RowMajorChain(f: (nat, nat) -> Grid, n: nat, p: nat, q: nat, i: nat, j: nat)
    requires p <= i && q <= n && j <= n && (p == i ==> q <= j) && (i < n || (i == n && j == 0))
    requires forall a: nat, b: nat | a < n && b < n && InRange(a, b, p, q, i, j) :: f(a, b) == f(a, b + 1)
    requires forall a: nat | p <= a < i :: f(a, n) == f(a + 1, 0)
    ensures f(p, q) == f(i, j)
    decreases i - p, n - q
  {
    if p == i && q == j {
    } else if q == n {
      RowMajorChain(f, n, p + 1, 0, i, j);
    } else {
      assert InRange(p, q, p, q, i, j);
      RowMajorChain(f, n, p, q + 1, i, j);
    }
  }

  /**
   Over a stretch of quiet draws, sweeping is the same as applying the rule
   over that stretch and sweeping on from its end.
   */
  lemma QuietRun(prev: Grid, base: Grid, n: nat, draws: Draws,
                 s0: nat, s1: nat, p: nat, q: nat, i: nat, j: nat)
    requires n > 0 && IsGrid(prev, n) && IsGrid(base, n) && IsDraws(draws, n)
    requires p <= i && q <= n && j <= n && (p == i ==> q <= j) && (i < n || (i == n && j == 0))
    requires !Before(p, q, s0, s1)
    requires QuietBetween(draws, n, p, q, i, j)
    ensures Run(prev, base, n, draws, s0, s1, p, q) == Run(prev, base, n, draws, s0, s1, i, j)
  {
    var f := (a: nat, b: nat) => if a <= n && b <= n then Run(prev, base, n, draws, s0, s1, a, b) else base;
    forall a: nat, b: nat | a < n && b < n && InRange(a, b, p, q, i, j)
      ensures f(a, b) == f(a, b + 1)
    {
      RunQuietCell(prev, base, n, draws, s0, s1, a, b);
    }
    forall a: nat | p <= a < i
      ensures f(a, n) == f(a + 1, 0)
    {
      RunRowEnd(prev, base, n, draws, s0, s1, a);
    }
    RowMajorChain(f, n, p, q, i, j);
  }

  /** A frame is the run from the first cell with nothing overlaid yet. */
  lemma StepIsRun(g: Grid, n: nat, draws: Draws)
    requires n > 0 && IsGrid(g, n) && IsDraws(draws, n)
    ensures Step(g, n, draws) == Run(g, g, n, draws, 0, 0, 0, 0)
  {
    OverlayEmpty(g, g, n, 0, 0);
  }

  /** A run that has reached the end of the grid is its overlay. */
  lemma RunAtEnd(prev: Grid, base: Grid, n: nat, draws: Draws, s0: nat, s1: nat)
    requires n > 0 && IsGrid(prev, n) && IsGrid(base, n) && IsDraws(draws, n)
    ensures Run(prev, base, n, draws, s0, s1, n, 0) == Overlay(prev, base, n, s0, s1, n, 0)
  {
  }

  /** With no draw in any band, one frame is exactly the pure Conway step. */
  lemma QuietStepIsConway(g: Grid, n: nat, draws: Draws)
    requires n > 0 && IsGrid(g, n) && IsDraws(draws, n) && AllQuiet(draws, n)
    ensures Step(g, n, draws) == ConwayStep(g, n)
  {
    StepIsRun(g, n, draws);
    QuietRun(g, g, n, draws, 0, 0, 0, 0, n, 0);
    RunAtEnd(g, g, n, draws, 0, 0);
    GridExt(Overlay(g, g, n, 0, 0, n, 0), ConwayStep(g, n), n);
  }

  /** The draws around a lone perturbation at (i, j) are quiet before and after it. */
  lemma QuietAround(draws: Draws, n: nat, i: nat, j: nat)
    requires IsDraws(draws, n) && QuietExcept(draws, n, i, j)
    ensures QuietBetween(draws, n, 0, 0, i, j)
    ensures QuietBetween(draws, n, i, j + 1, n, 0)
  {
  }

  /** Quiet draws before (i, j): the frame is the pure rule up to (i, j), then the body at (i, j). */
  lemma StepUpToCell(g: Grid, n: nat, draws: Draws, i: nat, j: nat)
    requires n > 0 && IsGrid(g, n) && IsDraws(draws, n) && i < n && j < n
    requires QuietBetween(draws, n, 0, 0, i, j)
    ensures var c := ApplyCell(g, Overlay(g, g, n, 0, 0, i, j), n, i, j, draws[i][j]);
            Step(g, n, draws) == Sweep(g, c, n, draws, i, j + 1)
  {
    StepIsRun(g, n, draws);
    QuietRun(g, g, n, draws, 0, 0, 0, 0, i, j);
    SweepCell(g, Overlay(g, g, n, 0, 0, i, j), n, draws, i, j);
  }

  /** Quiet draws after (i, j): the rest of the frame is the pure rule over the grid at hand. */
  lemma SweepQuietToEnd(prev: Grid, cur: Grid, n: nat, draws: Draws, i: nat, j: nat)
    requires n > 0 && IsGrid(prev, n) && IsGrid(cur, n) && IsDraws(draws, n) && i < n && j < n
    requires QuietBetween(draws, n, i, j + 1, n, 0)
    ensures Sweep(prev, cur, n, draws, i, j + 1) == Overlay(prev, cur, n, i, j + 1, n, 0)
  {
    OverlayEmpty(prev, cur, n, i, j + 1);
    QuietRun(prev, cur, n, draws, i, j + 1, i, j + 1, n, 0);
    RunAtEnd(prev, cur, n, draws, i, j + 1);
  }

  /**
   With every draw but the one at (i, j) quiet, the frame is the sweep up to
   (i, j) under the pure rule, the full body at (i, j), and the pure rule
   applied over the result at every later cell.
   */
  lemma SweepThroughOne(g: Grid, n: nat, draws: Draws, i: nat, j: nat)
    requires n > 0 && IsGrid(g, n) && IsDraws(draws, n) && i < n && j < n
    requires QuietExcept(draws, n, i, j)
    ensures var c := ApplyCell(g, Overlay(g, g, n, 0, 0, i, j), n, i, j, draws[i][j]);
            Step(g, n, draws) == Overlay(g, c, n, i, j + 1, n, 0)
  {
    var c := ApplyCell(g, Overlay(g, g, n, 0, 0, i, j), n, i, j, draws[i][j]);
    QuietAround(draws, n, i, j);
    StepUpToCell(g, n, draws, i, j);
    SweepQuietToEnd(g, c, n, draws, i, j);
  }

  /**
   A lone mutation draw at (i, j) flips that cell of the Conway step and
   leaves every other cell as the pure rule has it.
   */
  lemma MutationOnly(g: Grid, n: nat, draws: Draws, i: nat, j: nat)
    requires n > 0 && IsGrid(g, n) && IsDraws(draws, n) && i < n && j < n
    requires QuietExcept(draws, n, i, j) && IsMutationDraw(draws[i][j])
    ensures var life := ConwayStep(g, n);
            Step(g, n, draws) == SetCell(life, n, i, j, Toggle(life[i][j]))
  {
    var m := Overlay(g, g, n, 0, 0, i, j);
    var ruled := RuleAt(g, m, n, i, j);
    assert ApplyCell(g, m, n, i, j, draws[i][j]) == SetCell(ruled, n, i, j, Toggle(ruled[i][j]));
    SweepThroughOne(g, n, draws, i, j);
    MutatedOverlay(g, n, i, j);
  }

  /** The rest of the sweep after a flip at (i, j), with nothing else happening. */
  lemma MutatedOverlay(g: Grid, n: nat, i: nat, j: nat)
    requires n > 0 && IsGrid(g, n) && i < n && j < n
    ensures var life := ConwayStep(g, n);
            var ruled := RuleAt(g, Overlay(g, g, n, 0, 0, i, j), n, i, j);
            Overlay(g, SetCell(ruled, n, i, j, Toggle(ruled[i][j])), n, i, j + 1, n, 0)
              == SetCell(life, n, i, j, Toggle(life[i][j]))
  {
    var life := ConwayStep(g, n);
    var m := Overlay(g, g, n, 0, 0, i, j);
    var ruled := RuleAt(g, m, n, i, j);
    var c := SetCell(ruled, n, i, j, Toggle(ruled[i][j]));
    var r := Overlay(g, c, n, i, j + 1, n, 0);
    var t := SetCell(life, n, i, j, Toggle(life[i][j]));
    forall a, b | 0 <= a < n && 0 <= b < n
      ensures r[a][b] == t[a][b]
    {
      if a == i && b == j {
        assert m[a][b] == g[a][b];
      }
    }
    GridExt(r, t, n);
  }

  /** The outcome, at one cell, of stamping p at (i, j) after a quiet sweep up to (i, j). */
  lemma StampedCell(g: Grid, n: nat, p: Pattern, i: nat, j: nat, a: nat, b: nat)
    requires n > 0 && IsGrid(g, n) && IsPattern(p) && i < n && j < n && a < n && b < n
    ensures var m := Overlay(g, g, n, 0, 0, i, j);
            var c := TryStamp(RuleAt(g, m, n, i, j), n, p, i, j);
            Overlay(g, c, n, i, j + 1, n, 0)[a][b]
              == if Fits(n, i, j) && InBlock(a, b, i, j)
                 then (if a == i && b == j then p[0][0] else Resolve(RuleFor(g, n, a, b), p[a - i][b - j]))
                 else ConwayStep(g, n)[a][b]
  {
    var m := Overlay(g, g, n, 0, 0, i, j);
    var ruled := RuleAt(g, m, n, i, j);
    var c := TryStamp(ruled, n, p, i, j);
    var r := Overlay(g, c, n, i, j + 1, n, 0);
    var stamped := Fits(n, i, j) && InBlock(a, b, i, j);
    if Before(a, b, i, j) {
      assert !InBlock(a, b, i, j);
      assert r[a][b] == c[a][b] == ruled[a][b] == m[a][b];
    } else if a == i && b == j {
      assert m[a][b] == g[a][b];
      assert r[a][b] == c[a][b];
      assert c[a][b] == if stamped then p[0][0] else ruled[a][b];
    } else {
      assert r[a][b] == NextCell(g, n, a, b, c[a][b]);
      assert c[a][b] == if stamped then p[a - i][b - j] else g[a][b];
    }
  }

  /** A glider or shark draw makes the cell's body the rule followed by that stamp. */
  lemma StampDrawBody(prev: Grid, cur: Grid, n: nat, i: nat, j: nat, d: real)
    requires n > 0 && IsGrid(prev, n) && IsGrid(cur, n) && i < n && j < n
    requires IsGliderDraw(d) || IsSharkDraw(d)
    ensures var p := if IsGliderDraw(d) then Glider else Shark;
            ApplyCell(prev, cur, n, i, j, d) == TryStamp(RuleAt(prev, cur, n, i, j), n, p, i, j)
  {
  }

  /**
   A lone glider or shark draw at (i, j). When the 3x3 block fits, cell
   (i, j) holds the pattern's top-left value; every later cell of the block
   keeps the stamped value unless the rule, decided from the previous grid,
   writes it; every cell outside the block is as in the pure Conway step.
   When the block does not fit, the frame is the pure Conway step.
   */
  lemma StampOnly(g: Grid, n: nat, draws: Draws, i: nat, j: nat)
    requires n > 0 && IsGrid(g, n) && IsDraws(draws, n) && i < n && j < n
    requires QuietExcept(draws, n, i, j)
    requires IsGliderDraw(draws[i][j]) || IsSharkDraw(draws[i][j])
    ensures var p := if IsGliderDraw(draws[i][j]) then Glider else Shark;
            var r := Step(g, n, draws);
            && (!Fits(n, i, j) ==> r == ConwayStep(g, n))
            && (Fits(n, i, j) ==> forall a, b | 0 <= a < n && 0 <= b < n ::
                  r[a][b] == if !InBlock(a, b, i, j) then ConwayStep(g, n)[a][b]
                             else if a == i && b == j then p[0][0]
                             else Resolve(RuleFor(g, n, a, b), p[a - i][b - j]))
  {
    var p := if IsGliderDraw(draws[i][j]) then Glider else Shark;
    var m := Overlay(g, g, n, 0, 0, i, j);
    var c := TryStamp(RuleAt(g, m, n, i, j), n, p, i, j);
    StampDrawBody(g, m, n, i, j, draws[i][j]);
    SweepThroughOne(g, n, draws, i, j);
    assert Step(g, n, draws) == Overlay(g, c, n, i, j + 1, n, 0);
    StampedOverlay(g, n, p, i, j);
  }

  /** The rest of the sweep after the rule and a stamp at (i, j), with nothing else happening. */
  lemma StampedOverlay(g: Grid, n: nat, p: Pattern, i: nat, j: nat)
    requires n > 0 && IsGrid(g, n) && IsPattern(p) && i < n && j < n
    ensures var c := TryStamp(RuleAt(g, Overlay(g, g, n, 0, 0, i, j), n, i, j), n, p, i, j);
            var r := Overlay(g, c, n, i, j + 1, n, 0);
            && (!Fits(n, i, j) ==> r == ConwayStep(g, n))
            && (Fits(n, i, j) ==> forall a, b | 0 <= a < n && 0 <= b < n ::
                  r[a][b] == if !InBlock(a, b, i, j) then ConwayStep(g, n)[a][b]
                             else if a == i && b == j then p[0][0]
                             else Resolve(RuleFor(g, n, a, b), p[a - i][b - j]))
  {
    var life := ConwayStep(g, n);
    var c := TryStamp(RuleAt(g, Overlay(g, g, n, 0, 0, i, j), n, i, j), n, p, i, j);
    var r := Overlay(g, c, n, i, j + 1, n, 0);
    forall a, b | 0 <= a < n && 0 <= b < n
      ensures r[a][b] == if Fits(n, i, j) && InBlock(a, b, i, j)
                         then (if a == i && b == j then p[0][0] else Resolve(RuleFor(g, n, a, b), p[a - i][b - j]))
                         else life[a][b]
    {
      StampedCell(g, n, p, i, j, a, b);
    }
    if !Fits(n, i, j) {
      GridExt(r, life, n);
    }
  }
}
