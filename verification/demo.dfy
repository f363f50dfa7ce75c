/**
 The glider demo's initial grid: all cells dead, then a glider stamped with
 its top-left at (1, 1). Small patterns like this one are reasoned about on
 the plane: a pattern that keeps to rows and columns 1..4 of a grid with at
 least 6 rows and columns never meets its own wrapped neighbourhood.
 */
module GliderDemo {
  import opened Cells
  import opened Torus
  import opened Conway
  import opened Patterns

  function ZeroGrid(n: nat): (g: Grid)
    ensures IsGrid(g, n) && AllSentinel(g, n)
    ensures forall a, b | 0 <= a < n && 0 <= b < n :: g[a][b] == OFF
  {
    seq(n, _ => seq(n, _ => OFF))
  }

  /**
   The small patterns the demo is about: the glider in each of the five
   phases it passes through in four steps, and the 2x2 block.
   */
  datatype Shape = Glider0 | Glider1 | Glider2 | Glider3 | Glider4 | Block

  /** Cell (a, b) is live in the shape, at grid coordinates. */
  predicate LiveIn(s: Shape, a: int, b: int)
  {
    match s
    case Glider0 => (a == 1 && b == 3) || (a == 2 && (b == 1 || b == 3)) || (a == 3 && (b == 2 || b == 3))
    case Glider1 => (a == 1 && b == 2) || (a == 2 && (b == 3 || b == 4)) || (a == 3 && (b == 2 || b == 3))
    case Glider2 => (a == 1 && b == 3) || (a == 2 && b == 4) || (a == 3 && 2 <= b <= 4)
    case Glider3 => (a == 2 && (b == 2 || b == 4)) || (a == 3 && (b == 3 || b == 4)) || (a == 4 && b == 3)
    case Glider4 => (a == 2 && b == 4) || (a == 3 && (b == 2 || b == 4)) || (a == 4 && (b == 3 || b == 4))
    case Block => 1 <= a <= 2 && 1 <= b <= 2
  }

  /** The grid whose live cells are exactly the shape's; every other cell is OFF. */
  function Picture(n: nat, s: Shape): (g: Grid)
    ensures IsGrid(g, n) && AllSentinel(g, n)
    ensures forall a, b | 0 <= a < n && 0 <= b < n :: g[a][b] == ON <==> LiveIn(s, a, b)
  {
    seq(n, a => seq(n, b => if LiveIn(s, a, b) then ON else OFF))
  }

  function Member(s: Shape, a: int, b: int): nat
  {
    if LiveIn(s, a, b) then 1 else 0
  }

  /** The number of live cells among the eight neighbours of (a, b) on the unbounded plane. */
  function PlaneCount(s: Shape, a: int, b: int): nat
  {
    Member(s, a, b - 1) + Member(s, a, b + 1) + Member(s, a - 1, b) + Member(s, a + 1, b)
    + Member(s, a - 1, b - 1) + Member(s, a - 1, b + 1) + Member(s, a + 1, b - 1) + Member(s, a + 1, b + 1)
  }

  /** B3/S23 on the plane: (a, b) is alive after one step of the shape. */
  predicate LivesOn(s: Shape, a: int, b: int)
  {
    PlaneCount(s, a, b) == 3 || (LiveIn(s, a, b) && PlaneCount(s, a, b) == 2)
  }

  /**
   One plane Life step takes shape s to shape t, compared on rows and
   columns 0..5: no cell outside them has a live neighbour.
   */
  predicate StepsTo(s: Shape, t: Shape)
  {
    forall a, b | 0 <= a <= 5 && 0 <= b <= 5 :: LivesOn(s, a, b) <==> LiveIn(t, a, b)
  }

  /** Every shape keeps to rows and columns 1..4. */
  lemma ShapeIsSmall(s: Shape, a: int, b: int)
    ensures LiveIn(s, a, b) ==> 1 <= a <= 4 && 1 <= b <= 4
  {
  }

  /** Wrapping an index one step outside the grid never changes whether a shape's cell is live. */
  lemma MemberWraps(n: nat, s: Shape, x: int, y: int)
    requires n >= 6 && -1 <= x <= n && -1 <= y <= n
    ensures Alive(Picture(n, s)[Wrap(x, n)][Wrap(y, n)]) == Member(s, x, y)
  {
    ShapeIsSmall(s, x, y);
    ShapeIsSmall(s, Wrap(x, n), Wrap(y, n));
  }

  /** The wrapped neighbours of a shape's picture, term by term. */
  lemma NeighbourTermsAgree(n: nat, s: Shape, a: nat, b: nat)
    requires n >= 6 && a < n && b < n
    ensures LiveNeighbours(Picture(n, s), n, a, b)
              == Member(s, a, b - 1) + Member(s, a, b + 1) + Member(s, a - 1, b) + Member(s, a + 1, b)
               + Member(s, a - 1, b - 1) + Member(s, a - 1, b + 1) + Member(s, a + 1, b - 1) + Member(s, a + 1, b + 1)
  {
    var g := Picture(n, s);
    LiveNeighboursUnrolled(g, n, a, b);
    var up, down := Wrap(a - 1, n), Wrap(a + 1, n);
    var left, right := Wrap(b - 1, n), Wrap(b + 1, n);
    assert Wrap(a, n) == a && Wrap(b, n) == b;
    assert Alive(g[a][left]) == Member(s, a, b - 1) by { MemberWraps(n, s, a, b - 1); }
    assert Alive(g[a][right]) == Member(s, a, b + 1) by { MemberWraps(n, s, a, b + 1); }
    assert Alive(g[up][b]) == Member(s, a - 1, b) by { MemberWraps(n, s, a - 1, b); }
    assert Alive(g[down][b]) == Member(s, a + 1, b) by { MemberWraps(n, s, a + 1, b); }
    assert Alive(g[up][left]) == Member(s, a - 1, b - 1) by { MemberWraps(n, s, a - 1, b - 1); }
    assert Alive(g[up][right]) == Member(s, a - 1, b + 1) by { MemberWraps(n, s, a - 1, b + 1); }
    assert Alive(g[down][left]) == Member(s, a + 1, b - 1) by { MemberWraps(n, s, a + 1, b - 1); }
    assert Alive(g[down][right]) == Member(s, a + 1, b + 1) by { MemberWraps(n, s, a + 1, b + 1); }
  }

  /**
   On a grid of size 6 or more, the wrapped live-neighbour count of a
   shape's picture is its count on the plane.
   */
  lemma PlaneCountAgrees(n: nat, s: Shape, a: nat, b: nat)
    requires n >= 6 && a < n && b < n
    ensures LiveNeighbours(Picture(n, s), n, a, b) == PlaneCount(s, a, b)
  {
    NeighbourTermsAgree(n, s, a, b);
  }

  /** Beyond row or column 5 a shape has no live cell and no live neighbour. */
  lemma FarCellIsDead(s: Shape, a: int, b: int)
    requires a > 5 || b > 5
    ensures !LiveIn(s, a, b) && PlaneCount(s, a, b) == 0
  {
    ShapeIsSmall(s, a, b);
    ShapeIsSmall(s, a, b - 1);
    ShapeIsSmall(s, a, b + 1);
    ShapeIsSmall(s, a - 1, b);
    ShapeIsSmall(s, a + 1, b);
    ShapeIsSmall(s, a - 1, b - 1);
    ShapeIsSmall(s, a - 1, b + 1);
    ShapeIsSmall(s, a + 1, b - 1);
    ShapeIsSmall(s, a + 1, b + 1);
  }

  /** A cell of the torus step of a shape's picture follows B3/S23 on the plane. */
  lemma PictureCellIsLife(n: nat, s: Shape, a: nat, b: nat)
    requires n >= 6 && a < n && b < n
    ensures IsSentinel(ConwayStep(Picture(n, s), n)[a][b])
    ensures ConwayStep(Picture(n, s), n)[a][b] == ON <==> LivesOn(s, a, b)
  {
    var g := Picture(n, s);
    assert ConwayStep(g, n)[a][b] == NextCell(g, n, a, b, g[a][b]);
    CellIsLife(g, n, a, b);
    PlaneCountAgrees(n, s, a, b);
  }

  /** One cell of SmallStep. */
  lemma SmallStepCell(n: nat, s: Shape, t: Shape, a: nat, b: nat)
    requires n >= 6 && StepsTo(s, t) && a < n && b < n
    ensures ConwayStep(Picture(n, s), n)[a][b] == Picture(n, t)[a][b]
  {
    PictureCellIsLife(n, s, a, b);
    if a > 5 || b > 5 {
      FarCellIsDead(s, a, b);
      FarCellIsDead(t, a, b);
    }
  }

  /**
   The torus step of a shape's picture is the picture of the plane step:
   when s steps to t on the plane, one ConwayStep maps the one grid to the
   other on every grid of size 6 or more.
   */
  lemma SmallStep(n: nat, s: Shape, t: Shape)
    requires n >= 6 && StepsTo(s, t)
    ensures ConwayStep(Picture(n, s), n) == Picture(n, t)
  {
    forall a, b | 0 <= a < n && 0 <= b < n
      ensures ConwayStep(Picture(n, s), n)[a][b] == Picture(n, t)[a][b]
    {
      SmallStepCell(n, s, t, a, b);
    }
    GridExt(ConwayStep(Picture(n, s), n), Picture(n, t), n);
  }

  /** The glider's four phase changes on the plane. */
  lemma GliderStep0()
    ensures StepsTo(Glider0, Glider1)
  {
  }

  lemma GliderStep1()
    ensures StepsTo(Glider1, Glider2)
  {
  }

  lemma GliderStep2()
    ensures StepsTo(Glider2, Glider3)
  {
  }

  lemma GliderStep3()
    ensures StepsTo(Glider3, Glider4)
  {
  }

  /** The block is its own successor on the plane. */
  lemma BlockStep()
    ensures StepsTo(Block, Block)
  {
  }

  /** `k` pure Conway steps. */
  function Evolve(g: Grid, n: nat, k: nat): (r: Grid)
    requires n > 0 && IsGrid(g, n)
    ensures IsGrid(r, n)
  {
    if k == 0 then g else ConwayStep(Evolve(g, n, k - 1), n)
  }

  /**
   The demo grid. On every grid the program accepts (N > 8) the glider fits,
   so the stamp succeeds and the grid is all sentinels with exactly the
   glider's five cells (1, 3), (2, 1), (2, 3), (3, 2), (3, 3) live.
   */
  function DemoGrid(n: nat): (g: Grid)
    requires n > 8
    ensures IsGrid(g, n) && AllSentinel(g, n)
    ensures forall a, b | 0 <= a < n && 0 <= b < n :: g[a][b] == ON <==> LiveIn(Glider0, a, b)
  {
    Stamp(ZeroGrid(n), n, Glider, 1, 1).grid
  }

  lemma DemoIsPicture(n: nat)
    requires n > 8
    ensures DemoGrid(n) == Picture(n, Glider0)
  {
    GridExt(DemoGrid(n), Picture(n, Glider0), n);
  }

  /** One pure Conway step of the demo grid gives the glider's next phase, with no other live cell. */
  lemma DemoFirstStep(n: nat)
    requires n > 8
    ensures forall a, b | 0 <= a < n && 0 <= b < n ::
              ConwayStep(DemoGrid(n), n)[a][b] == ON <==> LiveIn(Glider1, a, b)
  {
    DemoIsPicture(n);
    GliderStep0();
    SmallStep(n, Glider0, Glider1);
  }

  /** Four pure Conway steps take the glider's first phase through the other four. */
  lemma GliderFourSteps(n: nat)
    requires n >= 6
    ensures Evolve(Picture(n, Glider0), n, 4) == Picture(n, Glider4)
  {
    var g := Picture(n, Glider0);
    GliderStep0();
    SmallStep(n, Glider0, Glider1);
    assert Evolve(g, n, 1) == Picture(n, Glider1);
    GliderStep1();
    SmallStep(n, Glider1, Glider2);
    assert Evolve(g, n, 2) == Picture(n, Glider2);
    GliderStep2();
    SmallStep(n, Glider2, Glider3);
    assert Evolve(g, n, 3) == Picture(n, Glider3);
    GliderStep3();
    SmallStep(n, Glider3, Glider4);
  }

  /**
   The demo pattern is a glider: after four pure Conway steps it reappears
   moved one cell down and one cell right, with no other live cell.
   */
  lemma DemoTranslates(n: nat)
    requires n > 8
    ensures AllSentinel(Evolve(DemoGrid(n), n, 4), n)
    ensures forall a, b | 0 <= a < n && 0 <= b < n ::
              Evolve(DemoGrid(n), n, 4)[a][b] == ON <==> LiveIn(Glider0, a - 1, b - 1)
  {
    DemoIsPicture(n);
    GliderFourSteps(n);
  }

  /** A 2x2 block on an otherwise dead grid is a still life: one Conway step leaves it unchanged. */
  lemma BlockStillLife(n: nat)
    requires n >= 6
    ensures ConwayStep(Picture(n, Block), n) == Picture(n, Block)
  {
    BlockStep();
    SmallStep(n, Block, Block);
  }
}
