# Game-of-Life state engine: dense grid and quadtree node

This project models the core of a Conway Game-of-Life engine. It has two components.

The **dense grid** (`grid.h`):
- A cell is one byte. It carries three flags, with a payload below them:
  - alive, bit 7;
  - needs-check, bit 6;
  - changed, bit 5.
- A `Grid` has:
  - a width and a height;
  - a cyclic flag, which selects a toroidal neighbourhood over a dead border;
  - the stepping algorithm it was built with;
  - two `width x height` buffers, `data` and `data_prev`.
- Each generation is written into `data_prev`, and then the two buffers swap.
- There are three algorithms:
  - `BASIC` recounts every cell.
  - `BASIC_DIFF` recounts only the cells whose check bit is set. A checked cell consumes its bit. Every cell that flips sets the check bit of itself and its eight neighbours.
  - `NEIGHBOURS` keeps each cell's live-neighbour count in its payload. It derives each new state from that count. Every cell that flips then adjusts the counts of its eight neighbours by ±1.

The **quadtree node** (`model/quadtree/quad.h`):
- A node has a level, coordinates x and y, four child slots, a parent and its own position in the parent.
- Its metadata byte holds:
  - four check (dirty) bits in the low nibble;
  - four existence bits in the high nibble.
- Four constant lookup tables give each slot's mask and unmask.
- A node's own check bit is stored in its parent, at the node's position there.

Both files are headers: they hold the layout, the constants and the signatures, not the bodies. The behaviour of each operation is modelled from its declaration and its comments, together with the engine's documented design:
- BASIC's rule: born on 3 neighbours, survives on 2 or 3;
- the cyclic and non-cyclic boundary policies;
- the check-bit and neighbour-count bookkeeping of the other two algorithms;
- the requirement that all three algorithms show the same alive bitmap at every generation.

## Structure

- `cell.dfy`, module `CellCodec`:
  - the cell byte, with flag masks, unmasks, flag setters, the payload and increment/decrement;
  - a decode/encode round trip.
- `life.dfy`, module `Life`:
  - the generation rule on board values (`seq<seq<bv8>>`, indexed `[y][x]`);
  - the neighbourhood, with its boundary policy; `get_next_state_basic`;
  - the exact next generation of each algorithm, and the proofs that they agree.
- `propagation.dfy`, module `Propagation`:
  - the state of the two "scatter" passes (BASIC_DIFF's marking and NEIGHBOURS' count adjustment) at every point of their loops;
  - proofs that both passes end in the neighbourhood-level results `Life` uses.
- `grid.dfy`, module `GridEngine`:
  - the imperative grid: `class Grid` over two `array2<bv8>` buffers;
  - loops that fill or patch a buffer in place;
  - the swap.
- `quad.dfy`, module `Quadtree`:
  - the mask tables and the per-slot bit writes;
  - `class Quad<L>`, with a `metadata` field and a four-element `subQuads` array.
- `scenarios.dfy`, module `Scenarios`: the blinker scenario.

## Model

| member | source | states |
|---|---|---|
| CellCodec.MasksComplement | grid.h:1-8 | each flag mask OR its unmask is 255 and their AND is 0, for the alive, check and changed flags |
| CellCodec.MasksAreDistinctBits | grid.h:1-7 | the three flags are the single bits 7, 6 and 5; they are pairwise disjoint; the payload bits lie strictly below them |
| CellCodec.SetAlive | grid.h:1-2 | setting or clearing the alive flag gives the requested value and leaves the check flag, the changed flag and the payload unchanged |
| CellCodec.SetCheck | grid.h:4-5 | setting or clearing the check flag gives the requested value and leaves the other flags and the payload unchanged |
| CellCodec.SetChanged | grid.h:7-8 | setting or clearing the changed flag gives the requested value and leaves the other flags and the payload unchanged |
| CellCodec.EncodeDecode | grid.h:1-8 | every byte is exactly its three flags plus its payload: encoding the decoded fields gives the byte back |
| CellCodec.DecodeEncode | grid.h:1-8 | any flags together with a payload below 32 survive an encode followed by a decode |
| CellCodec.WithPayload | grid.h:17-18 | storing a payload keeps all three flags and stores exactly that payload |
| CellCodec.IncPayload | grid.h:17-18 | a plain byte increment of a count below 31 raises the payload by one and keeps every flag |
| CellCodec.DecPayload | grid.h:17-18 | a plain byte decrement of a positive count lowers the payload by one and keeps every flag |
| CellCodec.CountFitsBelowFlags | grid.h:17-18 | a count from 0 to 8 is below CHANGEMASK, and storing it changes no flag bit |
| Life.Neighbour | grid.h:27 | the k-th neighbour lies in the grid; without wrap-around it exists exactly when the offset position (y + Dy(k), x + Dx(k)) is inside, and then it is that position; offset 4 is the cell itself |
| Life.NeighbourOnTorus | grid.h:27 | on a cyclic grid the k-th neighbour is the offset position reduced modulo the height and the width |
| Life.NeighbourSymmetric | grid.h:27 | q is p's neighbour at offset k exactly when p is q's neighbour at offset 8 - k, under both boundary policies |
| Life.WrapIsModulo | grid.h:27 | the cyclic coordinate wrap is reduction modulo the grid's size |
| Life.LiveNeighbours | grid.h:46 | the live-neighbour count over the 8 neighbours is at most 8 |
| Life.GetNextStateBasic | grid.h:46 | the result is STATEMASK or 0; it is alive exactly when the cell has 3 live neighbours, or it is alive with 2 |
| Life.BasicStep | grid.h:44 | grid_step_basic on values: a board of the grid's shape, whose cells are given by Life.BasicStepCell (BASIC's rule at every cell) and which depends only on the input's alive bits (Life.BasicStepSameAlive) |
| Life.DiffStep | grid.h:45 | grid_step_basic_diff on values: a board of the grid's shape; Life.DiffAgreesWithBasic gives its alive bitmap as BASIC's, and Life.DiffPreservesSound shows it keeps BASIC_DIFF's invariant |
| Life.NeighboursStep | grid.h:47 | grid_step_neighbours on values: a board of the grid's shape; Life.NeighboursAgreesWithBasic gives its alive bitmap as BASIC's, and Life.NeighboursPreservesCounts shows its payloads are the new counts |
| Life.StepWith | grid.h:43 | grid_step on values: the stepper the tag selects; Life.StepWithAgrees gives BASIC's bitmap and keeps the tag's invariant |
| Life.Run | grid.h:43 | n repeated grid_step calls; Life.AlgorithmsAgree shows every algorithm matches BASIC's bitmap after any n |
| Life.BasicStepCell | grid.h:44 | every cell of BASIC's next generation is born on 3 and survives on 2 or 3; its byte is STATEMASK or 0 |
| Life.LiveNeighboursSameAlive | grid.h:32-33 | the neighbour count depends only on the alive bits |
| Life.BasicStepSameAlive | grid.h:44 | BASIC ignores everything but the alive bits of its input |
| Life.DiffRecompute | grid.h:45 | BASIC_DIFF's first pass at one cell: it clears the check bit and zeroes the payload; the changed bit is set exactly when the cell flipped; an unchecked cell keeps its state, and a checked cell takes get_next_state_basic's state |
| Life.DiffAgreesWithBasic | grid.h:44-45 | when every unchecked cell is stable, BASIC_DIFF's next generation has BASIC's alive bitmap |
| Life.QuietHoodSameCount | grid.h:45 | a cell with no changed cell in its neighbourhood kept its state, and recounts to the same number |
| Life.DiffPreservesSound | grid.h:45 | BASIC_DIFF re-establishes its invariant, "every unchecked cell is stable", for the following generation |
| Life.NeighboursRecompute | grid.h:47 | NEIGHBOURS' first pass at one cell: it keeps the stored count and clears the check bit; the new cell is alive exactly when the stored count is 3, or the cell was alive with a count of 2; the changed bit is set exactly when the cell flipped |
| Life.NeighboursAgreesWithBasic | grid.h:44-47 | when every payload holds the cell's live-neighbour count, NEIGHBOURS' next generation has BASIC's alive bitmap |
| Life.NeighboursPreservesCounts | grid.h:17-19 | after a NEIGHBOURS step, every payload again holds the live-neighbour count of the new generation |
| Life.StepWithAgrees | grid.h:43-47 | one step under any algorithm whose invariant holds gives BASIC's alive bitmap and keeps that invariant |
| Life.AlgorithmsAgree | grid.h:43-47 | from boards with equal alive bitmaps, each meeting its algorithm's invariant, every algorithm shows BASIC's bitmap after any number of generations |
| Life.DeadBoard | grid.h:48 | the board fits the grid and every cell is the zero byte (dead, clean, unchanged, payload 0), so no cell is alive |
| Life.DeadBoardStaysDead | grid.h:43-48 | a board of zero bytes meets every algorithm's invariant, and one step under any algorithm leaves it with no live cell |
| Propagation.MarkedReplayComplete | grid.h:45 | after the marking pass has visited every cell, a cell is marked exactly when some cell of its 3x3 neighbourhood changed |
| Propagation.CountReplayComplete | grid.h:47 | after the adjusting pass, starting from the old counts, each payload equals the cell's live-neighbour count in the new generation |
| GridEngine.Cells | grid.h:33-34 | a buffer read as a board has the buffer's dimensions and holds the buffer's bytes |
| GridEngine.FillCells | grid.h:44-47 | the row-by-row pass writes f(y, x) into every cell of the buffer |
| GridEngine.MarkAll | grid.h:45 | BASIC_DIFF's second pass, in place: every cell ends as the first pass's byte, with its check bit set exactly when its neighbourhood changed |
| GridEngine.AdjustAll | grid.h:47 | NEIGHBOURS' second pass, in place: every cell ends as the first pass's byte, holding the new generation's live-neighbour count |
| GridEngine.Grid.constructor | grid.h:41 | grid_init records width, height, cyclic and algorithm; it allocates two fresh, distinct height x width buffers; both are all dead, clean and unchanged, and the algorithm's invariant holds |
| GridEngine.Grid.Clear | grid.h:48 | grid_clear leaves every cell of both buffers dead, clean and unchanged, and the algorithm's invariant holds again |
| GridEngine.Grid.StepBasic | grid.h:44 | the new data buffer holds BASIC's next generation; the buffers swap roles; the previous generation is the old current one |
| GridEngine.Grid.StepBasicDiff | grid.h:45 | the new data buffer holds BASIC_DIFF's next generation; the buffers swap roles |
| GridEngine.Grid.StepNeighbours | grid.h:47 | the new data buffer holds NEIGHBOURS' next generation; the buffers swap roles |
| GridEngine.Grid.Step | grid.h:43 | grid_step runs the stepper selected by the algorithm tag; the new generation has BASIC's alive bitmap, and the tag's invariant still holds |
| Quadtree.CheckTables | model/quadtree/quad.h:7-23 | for every slot i in 0..3, metadata_check_mask[i] is 1 << i, and metadata_check_unmask[i] is 255 minus it, its bitwise complement |
| Quadtree.ExistTables | model/quadtree/quad.h:25-41 | for every slot i in 0..3, metadata_exist_mask[i] is 16 << i, and metadata_exist_unmask[i] is 255 minus it, its bitwise complement |
| Quadtree.CombinedMasks | model/quadtree/quad.h:1-41 | the OR of the check masks is 15 and the OR of the exist masks is 240; the two are disjoint and together cover the byte |
| Quadtree.WithCheck | model/quadtree/quad.h:9-23 | writing check bit p gives the requested value and leaves the other check bits and every exist bit unchanged |
| Quadtree.WithExist | model/quadtree/quad.h:27-41 | writing exist bit p gives the requested value and leaves the other exist bits and every check bit unchanged |
| Quadtree.Quad.constructor | model/quadtree/quad.h:72-73 | quad_init stores x, y, level and parent; metadata is 0; the node gets four fresh empty slots, so the exist bits match the slots |
| Quadtree.Quad.SetCheck | model/quadtree/quad.h:75-77 | check bit pos becomes value != 0 and every other metadata bit is kept. A child at pos then reads that value through get_check, while the node's own get_check is unaffected |
| Quadtree.Quad.GetCheck | model/quadtree/quad.h:79-81 | the result is the check bit at pos_in_parent of the parent's metadata; the frame excludes the node's own metadata |
| Quadtree.Quad.SetSubQuad | model/quadtree/quad.h:83-84 | slot pos holds the child and the other slots are kept; exist bit pos is set exactly when the child is non-null; all other bits are kept |
| Scenarios.BlinkerTurns | grid.h:44 | on a 3x3 non-cyclic grid, one BASIC step turns the horizontal blinker through the centre into the vertical one |
| Scenarios.BlinkerTurnsBack | grid.h:44 | one BASIC step turns the vertical blinker back into the horizontal one |
| Scenarios.BlinkerPeriodTwo | grid.h:44 | under BASIC the blinker is vertical after one generation and horizontal again after two |

## Left out

- Spinlocks and all concurrency: the grid's `write_lock` and `read_lock`, and the quad's `read_lock`. The model is single-threaded.
- `free_grid_memory` and `quad_deinit`. Memory release has no counterpart in Dafny's garbage-collected heap.
- The allocation failure of `grid_init` and `quad_init`. Dafny allocation cannot fail.
- Rendering, input, pattern loading and everything outside the two headers.
- The cost of BASIC_DIFF and NEIGHBOURS. The model proves only that they agree with BASIC.
- Grid.StepNeighbours: the first pass evaluates every cell from its stored count. It does not restrict itself to cells near a flip. This gives the same result, since an untouched cell's rule on its stored count gives its current state.
- Grid.StepNeighbours: requires that every payload holds the cell's live-neighbour count. Grid.Step gets this from the invariant, which the constructor and Clear establish. A caller that edits cells directly must restore it, and the same holds for BASIC_DIFF's invariant.
- Life.GetNextStateBasic: the declaration takes only the buffer and the two coordinates (`uint8_t**, int, int`). The model also passes the grid's `Topology` (width, height, cyclic flag) so that the function can apply the boundary policy itself. Where the source gets those values is not visible in the header.
- Life.GetNextStateBasic: the header does not say what byte is returned. The model returns STATEMASK for alive and 0 for dead, so that the result reads through the same alive bit as every other cell. The comment on `data` speaks of "1 = alive, 0 = death"; the model reads that as the alive flag being 1 or 0, not as the byte values 1 and 0.
- GridEngine: `int` widths are modelled as `nat`. A grid of negative size has no meaning.
- Quadtree: the untyped `void **sub_quads` is modelled as a `Slot` datatype, which is empty, a leaf value or a child quad. NULL corresponds to `Empty`.
- Quadtree.Quad.SetCheck: a slot position is a `SlotPos` in 0..3. Every lookup table has four entries, so a position outside that range would read past a table. Such a call cannot be written against the model; it does not raise an InvalidPosition error.
- Quadtree.Quad.SetSubQuad: its position is likewise a `SlotPos` in 0..3.
- Quadtree.Quad.GetCheck: requires a parent and a position below 4. The root has no parent, and no root policy is chosen.
- Quadtree.Quad.GetCheck: `quad_get_check` returns an `int`; the model returns a `bool`, true exactly when the bit is set. The source's exact non-zero value (the masked bit, or 1) is not visible in the header.
- Quadtree.Quad.constructor: leaves pos_in_parent at 0. The declaration takes no position. Keeping `parent` and `posInParent` consistent with the parent's slot array is the caller's job, and the model does not enforce it.
- Quadtree: widths are modelled as subset types of `int` (`uint8` for level and position, `uint32` for coordinates). No operation does arithmetic on them.
- The glider scenario (a 16x16 cyclic grid over 4 generations). It is a concrete instance of Life.AlgorithmsAgree and the cyclic neighbourhood. Its 256 cells times 4 generations are too large for a literal proof.
