/**
 Conway's birth/survival rule as the update loop applies it: the decision is
 taken from the PREVIOUS grid, and a cell is written only when the rule changes it.
 */
module Conway {
  import opened Cells
  import opened Torus

  /** What the rule does to one cell of the new grid. */
  datatype Decision = Write(value: int) | Keep

  /**
   The rule for a cell whose old value is v and whose neighbour total is count.
   It only ever writes a sentinel, it writes only when that changes the old
   value, and on sentinel cells the value it leaves is the standard B3/S23
   outcome: alive next exactly when born with 3 neighbours or surviving with 2.
   */
  function Rule(v: int, count: int): (d: Decision)
    ensures d.Write? ==> IsSentinel(d.value) && d.value != v
    ensures d.Write? ==> d.value == (if v == ON then OFF else ON)
    ensures v == ON ==> (d.Write? <==> count < 2 || count > 3)
    ensures v != ON ==> (d.Write? <==> count == 3)
    ensures IsSentinel(v) ==> (Resolve(d, v) == ON <==> count == 3 || (v == ON && count == 2))
  {
    if v == ON then
      if count < 2 || count > 3 then Write(OFF) else Keep
    else
      if count == 3 then Write(ON) else Keep
  }

  /** The value a cell of the new grid holds after the decision, given its current value. */
  function Resolve(d: Decision, current: int): int
  {
    match d
    case Write(w) => w
    case Keep => current
  }

  /** The rule's decision for cell (a, b), read from the previous grid. */
  function RuleFor(prev: Grid, n: nat, a: nat, b: nat): Decision
    requires n > 0 && IsGrid(prev, n) && a < n && b < n
  {
    Rule(prev[a][b], Count(prev, n, a, b))
  }

  /** The value cell (a, b) takes when the rule meets `current` in the new grid. */
  function NextCell(prev: Grid, n: nat, a: nat, b: nat, current: int): int
    requires n > 0 && IsGrid(prev, n) && a < n && b < n
  {
    Resolve(RuleFor(prev, n, a, b), current)
  }

  /** The pure synchronous Conway step: every cell decided from the previous grid alone. */
  function ConwayStep(g: Grid, n: nat): (r: Grid)
    requires n > 0 && IsGrid(g, n)
    ensures IsGrid(r, n)
  {
    seq(n, a requires 0 <= a < n => seq(n, b requires 0 <= b < n => NextCell(g, n, a, b, g[a][b])))
  }

  /** One cell of the pure step, on a grid of sentinels, follows B3/S23. */
  lemma CellIsLife(g: Grid, n: nat, a: nat, b: nat)
    requires n > 0 && IsGrid(g, n) && AllSentinel(g, n) && a < n && b < n
    ensures IsSentinel(NextCell(g, n, a, b, g[a][b]))
    ensures NextCell(g, n, a, b, g[a][b]) == ON <==>
              (LiveNeighbours(g, n, a, b) == 3 || (g[a][b] == ON && LiveNeighbours(g, n, a, b) == 2))
  {
    CountIsLiveNeighbours(g, n, a, b);
    var d := Rule(g[a][b], Count(g, n, a, b));
    assert NextCell(g, n, a, b, g[a][b]) == Resolve(d, g[a][b]);
  }

  /**
   On a grid of sentinels the pure step is Conway's Game of Life on the torus:
   a cell is alive next exactly when it has 3 live neighbours, or is alive and
   has 2; every cell of the result is a sentinel.
   */
  lemma ConwayStepIsLife(g: Grid, n: nat)
    requires n > 0 && IsGrid(g, n) && AllSentinel(g, n)
    ensures AllSentinel(ConwayStep(g, n), n)
    ensures forall a, b | 0 <= a < n && 0 <= b < n ::
              ConwayStep(g, n)[a][b] == ON <==>
                (LiveNeighbours(g, n, a, b) == 3 || (g[a][b] == ON && LiveNeighbours(g, n, a, b) == 2))
  {
    var r := ConwayStep(g, n);
    forall a, b | 0 <= a < n && 0 <= b < n
      ensures IsSentinel(r[a][b])
      ensures r[a][b] == ON <==>
                (LiveNeighbours(g, n, a, b) == 3 || (g[a][b] == ON && LiveNeighbours(g, n, a, b) == 2))
    {
      assert r[a][b] == NextCell(g, n, a, b, g[a][b]);
      CellIsLife(g, n, a, b);
    }
  }
}
