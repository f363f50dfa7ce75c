# Conway's Game of Life on a torus, with random perturbations — a Dafny model

This project models the simulation step of `gameoflife.py`: one frame of
Conway's Game of Life on an N×N toroidal grid whose cells hold the sentinels
ON = 255 and OFF = 0, followed by per-cell random perturbations (a spontaneous
flip, a glider stamp, a "shark" stamp). It also models the two pattern-stamping
helpers `addGlider` / `addShark` and the glider-demo initial grid built by
`main`.

The random draws become an input: `Draws` is an N×N `seq<seq<real>>`, one draw
per cell, and each cell's three perturbation checks read that same draw, as
the loop does. With the draws fixed, a frame is a deterministic function.

Files and modules:

- `cells.dfy` — `Cells`: the sentinels, the `Grid` type, row-major order
  (`Before`), single-cell writes and the mutation's `Toggle`.
- `torus.dfy` — `Torus`: index wrap-around, the eight-neighbour sum in the
  loop's order, `int(sum / 255)` as truncating division, and an independent
  reference count of live neighbours (`LiveNeighbours`).
- `patterns.dfy` — `Patterns`: the glider and shark constants, `Stamp` (numpy's
  3×3 slice assignment, which either writes the whole block or fails) and
  `TryStamp` (the call site's `try … except Exception: pass`).
- `conway.dfy` — `Conway`: the rule as the loop applies it (`Rule` returns
  `Write(v)` or `Keep`, because the loop writes a cell only when the rule
  changes it) and the pure synchronous step `ConwayStep`.
- `generation.dfy` — `Generation`: the draw bands, the loop body at one cell
  (`ApplyCell`), the row-major sweep (`Sweep`) and one frame (`Step`). It also
  holds the lemmas relating a frame to the pure Conway step.
- `update.dfy` — `UpdateLoop`: the imperative loop over an `array2`, proved to
  compute `Step`.
- `demo.dfy` — `GliderDemo`: the all-dead grid with a glider at (1, 1). It
  also holds small patterns on a large enough torus, related to Life on the
  plane: the glider's four phases and the 2×2 block.

The frame is synchronous by construction. Every neighbour count reads the
previous grid, which is an immutable value. All writes go to the new grid,
which starts as a copy of the previous one. The caller gets the new grid only
after the sweep ends.

The sweep is sequential, so a stamp at one cell can write later cells of the
new grid. When the loop reaches such a cell, the rule overwrites the stamped
value only if the rule changes that cell in the previous grid. `StampOnly`
states this exactly.

## Model

| member | source | states |
|---|---|---|
| Cells.ToggleFlips | gameoflife.py:53-57 | On a sentinel cell the mutation is a real flip (ON↔OFF), the result is a sentinel, and flipping twice restores the cell. |
| Torus.WrapIsMod | gameoflife.py:38-41 | The wrap used by the model equals the loop's `(x) % N` for every index the loop wraps (one step outside [0, N)), where Python's floored `%` and Dafny's Euclidean `%` agree because N > 0. |
| Torus.CountIsLiveNeighbours | gameoflife.py:38-41 | On a grid of sentinels, the wrapped eight-neighbour sum divided by 255 is exactly the number of live cells among the eight wrapped neighbours, so the total lies in [0, 8]. |
| Torus.CornerWraps | gameoflife.py:38-41 | On a sentinel grid with N ≥ 3, making (0, 0) live instead of dead raises the total of each of (N-1, N-1), (N-1, 0) and (0, N-1) by exactly one. |
| Conway.Rule | gameoflife.py:43-48 | A live cell is written (to OFF) exactly when its total is below 2 or above 3. Any other cell, sentinel or not, is written (to ON) exactly when its total is 3. Every write is a sentinel that differs from the old value. On a sentinel cell the resulting value is ON exactly under B3/S23: 3 neighbours, or alive with 2. |
| Conway.ConwayStepIsLife | gameoflife.py:38-48 | On a sentinel grid the pure step yields only sentinels, and a cell is alive next exactly when it has 3 live wrapped neighbours, or is alive with 2. |
| Patterns.Stamp | gameoflife.py:15-27 | Stamping a 3×3 pattern at (i, j) succeeds exactly when i+3 ≤ N and j+3 ≤ N. On success the block holds the pattern and every other cell is unchanged. |
| Patterns.TryStamp | gameoflife.py:60-74 | With the bounds error swallowed, a stamp that does not fit leaves the grid unchanged. Otherwise it writes exactly the block. |
| Patterns.BuiltInPatternsSentinel | gameoflife.py:15-27 | The glider and shark are 3×3 and contain only 0 and 255. |
| Patterns.StampKeepsSentinels | gameoflife.py:15-27 | Stamping a sentinel pattern into a sentinel grid leaves every cell a sentinel. |
| Patterns.StampNearCornerFails | gameoflife.py:20 | A stamp with top-left (N-2, N-2) fails, and the swallowed failure leaves the grid unchanged; nothing wraps. |
| Generation.BandsDisjoint | gameoflife.py:53-68 | The mutation band (< 0.00002), glider band (> 0.999995) and shark band ([0.5, 0.50001]) are pairwise disjoint, so at most one perturbation fires per cell. |
| Generation.ApplyCell | gameoflife.py:43-74 | The loop body at (i, j) changes only the 3×3 block whose top-left is (i, j). It keeps a sentinel grid a sentinel grid. |
| Generation.Sweep | gameoflife.py:33-74 | The rest of the row-major sweep keeps the grid N×N and keeps a sentinel grid a sentinel grid. |
| Generation.Step | gameoflife.py:29-78 | A frame keeps the grid N×N. Under any draws, if every cell starts as a sentinel, every cell is still one afterwards, since the rule, the flip and both patterns write only 0 and 255. |
| Generation.QuietStepIsConway | gameoflife.py:32-48 | When no draw falls in any band, a frame equals the pure synchronous Conway step applied cell-wise. |
| Generation.MutationOnly | gameoflife.py:53-57 | A lone mutation draw at (i, j) flips that cell's post-rule value. Every other cell is as in the pure Conway step. |
| Generation.StampOnly | gameoflife.py:60-74 | Take a lone glider or shark draw at (i, j). If the block does not fit, the frame is the pure Conway step. If it fits, (i, j) holds the pattern's corner. A later cell of the block keeps the stamped value unless the rule writes it. Every cell outside the block is as in the pure Conway step. |
| UpdateLoop.ApplyRule | gameoflife.py:38-48 | The rule's write at (i, j) goes into the array, and the decision is read from the previous grid. |
| UpdateLoop.Mutate | gameoflife.py:53-57 | On a mutation draw the array cell flips its current value (OFF to ON, anything else to OFF). Otherwise nothing is written. |
| UpdateLoop.StampInto | gameoflife.py:20 | The 3×3 slice assignment writes exactly the block. |
| UpdateLoop.VisitCell | gameoflife.py:38-74 | The array after the loop body at (i, j) is `ApplyCell` of the array before. |
| UpdateLoop.Update | gameoflife.py:29-78 | The imperative loop over a copy of the grid computes `Step`. When no draw falls in a band, it computes the pure Conway step. It keeps a sentinel grid a sentinel grid. |
| GliderDemo.DemoGrid | gameoflife.py:108-110 | On every size the program accepts (N > 8, lines 96-98), stamping the glider at (1, 1) into the all-dead grid succeeds. The result is all sentinels, and its live cells are exactly (1,3), (2,1), (2,3), (3,2), (3,3). |
| GliderDemo.NeighbourTermsAgree | gameoflife.py:38-41 | For each `Shape` (the glider's five phases and the 2×2 block, all inside rows and columns 1..4) on a grid with N ≥ 6, the wrapped live-neighbour count equals the count of the eight unwrapped neighbours on the plane. No neighbourhood reaches the pattern across the wrap. |
| GliderDemo.PlaneCountAgrees | gameoflife.py:38-41 | The same count, as the plane neighbour count `PlaneCount` that the plane Life step uses. |
| GliderDemo.SmallStep | gameoflife.py:38-48 | For each pair of `Shape`s where the first steps to the second under plane Life, one pure Conway step of the first's grid on any N ≥ 6 is the second's grid. |
| GliderDemo.DemoFirstStep | gameoflife.py:108-110 | One pure Conway step of the demo grid gives the glider's next phase. Its live cells are exactly (1,2), (2,3), (2,4), (3,2), (3,3). |
| GliderDemo.GliderFourSteps | gameoflife.py:43-48 | On a grid with N ≥ 6, four pure Conway steps take the glider's first phase to its fifth. |
| GliderDemo.DemoTranslates | gameoflife.py:108-110 | After four pure Conway steps, the demo grid holds only sentinels. A cell (a, b) is live exactly when (a-1, b-1) was live at the start: the glider has moved one cell down and one right, and nothing else is live. |
| GliderDemo.BlockStillLife | gameoflife.py:43-48 | On a grid with N ≥ 6, a 2×2 block on an otherwise dead grid is unchanged by one pure Conway step. |

## Left out

- `randomGrid` (gameoflife.py:11-13) and `np.random.uniform` (gameoflife.py:51): probabilistic sampling. The per-cell draws are an explicit input, one real per cell.
- The `print` calls (gameoflife.py:58, 66, 74): output only. The mutation message is printed only for an ON→OFF flip, not for OFF→ON, and the model has no output at all.
- `img.set_data`, `FuncAnimation`, `plt.show` and `ani.save` (gameoflife.py:77, 116-127): rendering and video encoding over libraries outside the program.
- argparse configuration (gameoflife.py:86-103): command-line handling. The model needs only N > 0; the program itself only runs with N > 8 (default 100), which `DemoGrid` uses.
- Floating point: the neighbour total `int(sum / 255)` is modelled as the exact quotient truncated toward zero, and the draw thresholds are compared as exact reals. The float-typed grid of the glider demo (`np.zeros`) is modelled with integer cells, since 0.0 and 255.0 compare equal to the integer sentinels.
- numpy's 64-bit integer width: unbounded integers are used, because a sum of eight sentinels is at most 2040.
- Torus.Wrap: defined only for indices at most one step outside [0, N), because the loop wraps no others; `WrapIsMod` ties it to `%`.
- Patterns.Stamp: takes non-negative offsets only. The loop stamps at (i, j) with 0 ≤ i, j < N and the demo at (1, 1), so numpy's negative-index slicing never arises.
- One draw per cell is shared by all three checks, and a failed stamp writes nothing.
- GliderDemo.BlockStillLife: states the still life for the block with top-left (1, 1) only. That the step commutes with shifting the torus is not proved, so other positions are not covered.
