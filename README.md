# Game of Life grid engine, in Dafny

This project models the simulation engine of a Game of Life variant in which
cells are empty (`Vide`), alive (`Vivant`) or a fixed obstacle
(`Obstacle`). The engine is the C++ class `Grid`, which appears twice with the
same method bodies: in `testunit/Grid.h` and in `projet-poo-g22/Grid.cpp`.
The class owns three things:
- the current `rows x cols` matrix of cells;
- a stack of earlier generations, used for undo;
- the fixed dimensions.

The engine loads a grid from a token stream and counts live neighbours with
bounded edges (no wraparound). It advances one generation, with obstacles
frozen and all cells updated at once from the old grid, and it undoes the
last generation. It also reports whether the last generation changed
nothing, sets the cell under a mouse click, and prints the grid as text.

Modules:
- `Cellule` (`Cellule.dfy`): the cell states, the matrix type, the shape
  predicate and small helpers.
- `Life` (`Life.dfy`): the reference definitions the engine is proved
  against:
  - `AliveAt` and `LivingNeighbors`, the bounded Moore neighbourhood;
  - `Rule`, the per-cell rule;
  - `Step`, one synchronous generation;
  - `StillLife`.
- `Input` (`Input.dfy`): how one token becomes a cell state, and the grid
  that a token sequence loads to.
- `CppInt` (`CppInt.dfy`): C++ integer division, which truncates toward
  zero.
- `Printing` (`Printing.dfy`): the console rendering, a whitespace tokenizer
  that reads text the way an input stream's `>>` does, and the proof that
  loading a printed grid gives the same grid back.
- `GridEngine` (`Grid.dfy`): the class `Grid`, with the same fields and
  methods as the C++ class. Its state-changing methods are imperative and
  use loops where the C++ code loops. `InitializeFromInput` and `Update`
  are proved against `Decoded` and `Step`, and `CountLivingNeighbors`
  against `LivingNeighbors`; `SaveState`, `Undo` and `ToggleCell` state
  their whole new state in terms of the old one (`ToggleCell` through
  `CppInt.TruncDiv`), and `Print` is proved against `Printing.Render`.
- `Patterns` (`Patterns.dfy`): grids given by their set of live cells, the
  block and the blinker of the unit tests, with proofs of how they evolve.
- `Scenarios` (`Scenarios.dfy`): the unit tests' expectations, written as
  verified client code of `Grid`.

The history is a `seq<Matrix>` whose last element is the top of the stack.
The file that `initializeFromInput` opens becomes two parameters:
- the sequence of whitespace-separated tokens in the file;
- a flag that says the file could not be opened.

## Model

| member | source | states |
|---|---|---|
| GridEngine.Grid.constructor | testunit/Grid.h:116-122 | The new grid has `r` rows of `c` cells, every cell is Vide, and the history is empty. |
| GridEngine.Grid.GetRows | testunit/Grid.h:97 | The result is the number of rows of the cell matrix. |
| GridEngine.Grid.GetCols | testunit/Grid.h:98 | The result is the column count `cols`, and every row of the cell matrix has that length. |
| GridEngine.Grid.GetCellState | testunit/Grid.h:99 | The result is the state of cell (row, col) of the current grid. |
| GridEngine.Grid.InitializeFromInput | testunit/Grid.h:125-152 | If the open fails, the outcome is OpenFailed and neither the cells nor the history change. Otherwise the outcome is Loaded and the history is empty. Every cell (i, j) is then loaded from token i*cols+j, and `HasStableState` is false. |
| Input.TokenState | testunit/Grid.h:140-148 | A token loads as Vivant exactly when it is "1", and as Obstacle exactly when it is "X" or "x". |
| Input.MissingTokensLoadEmpty | testunit/Grid.h:136-139 | A cell whose token is past the end of the stream loads as Vide, because each iteration declares a fresh empty token. |
| Input.ExtraTokensIgnored | testunit/Grid.h:136-139 | Tokens after the first rows*cols do not change the loaded grid. |
| GridEngine.Grid.CountLivingNeighbors | testunit/Grid.h:155-171 | The result equals `LivingNeighbors(cells, x, y)`, the number of on-grid Vivant cells among the eight positions around (x, y), and lies in 0..8. |
| Life.AliveAt | testunit/Grid.h:160-166 | A position contributes 1 exactly when it is on the grid and Vivant, and 0 otherwise. |
| Life.LivingNeighbors | projet-poo-g22/Grid.cpp:54-70 | The neighbour count is at most 8. |
| Life.ScannedAll | testunit/Grid.h:157-159 | Visiting the nine offsets row by row and skipping (0, 0) counts exactly the eight neighbours. |
| Life.NeighborsSeeOnlyAlive | projet-poo-g22/Grid.cpp:63-65 | Two grids of the same shape with the same live cells give every position the same count. Vide and Obstacle neighbours are indistinguishable. |
| Life.CornerAtMostThree | testunit/Grid.h:162-163 | With no wraparound, each of the four corners counts at most 3 neighbours. |
| Life.Rule | testunit/Grid.h:185-197 | A cell is Obstacle after the rule exactly when it was before. A Vivant cell stays Vivant exactly when it has 2 or 3 neighbours. A Vide cell becomes Vivant exactly when it has 3. |
| Life.StepAt | testunit/Grid.h:183-199 | Each cell of the next generation is the rule applied to its old state and its neighbour count in the old grid. |
| Life.StepShaped | testunit/Grid.h:182 | A rows x cols grid steps to a rows x cols grid. |
| Life.StepKeepsObstacles | projet-poo-g22/Grid.cpp:84 | A generation neither creates nor removes an obstacle. |
| Life.StepIsLocal | projet-poo-g22/Grid.cpp:81-99 | The update is synchronous: a cell's next state depends only on its own old state and on which cells of its 3x3 window were alive in the old grid. |
| GridEngine.Grid.SaveState | testunit/Grid.h:174-177 | The current grid is pushed on the history and the cells are unchanged. |
| GridEngine.Grid.Update | testunit/Grid.h:180-202 | The history gains exactly the old grid on top, and the new cells are `Step` of the old cells. Right afterwards `HasStableState` holds exactly when the old grid was a still life. |
| GridEngine.Grid.Undo | testunit/Grid.h:205-214 | With a non-empty history, the cells become the top snapshot and the top is popped. With an empty history, nothing changes. |
| GridEngine.Grid.HasStableState | testunit/Grid.h:217-220 | The result is false without history. Otherwise it is true exactly when the cells equal the top of the history. |
| Scenarios.UpdateThenUndo | testunit/test.cpp:121-165 | An update followed by an undo restores both the cells and the history. |
| GridEngine.Grid.ToggleCell | projet-poo-g22/Grid.cpp:144-155 | The target row and column come from C++ truncating division. A click off the grid changes nothing. An Obstacle request writes the cell. Any other request writes it only if it is not an obstacle. No obstacle is lost, all other cells and the history are unchanged, and the whole new matrix is given. |
| CppInt.TruncDiv | testunit/Grid.h:246-247 | The quotient rounds toward zero: the remainder has the sign of the dividend and is smaller than the divisor in magnitude. |
| CppInt.TruncDivOfNatural | testunit/Grid.h:246-247 | For a non-negative coordinate and a positive cell size, C++ division agrees with floor division. |
| CppInt.NegativeCoordinateTruncatesToZero | testunit/Grid.h:246-248 | A click at -5 with cells of 19 pixels lands in row 0, which is on the grid, while floor division would give -1. |
| GridEngine.Grid.Print | testunit/Grid.h:259-272 | The text has rows*(2*cols+1)+24 characters and ends with 23 dashes and a newline. Loading it back as a token stream gives the current cells. |
| Printing.CellToken | testunit/Grid.h:262-267 | Each cell prints as one character that loads back as the same state. |
| Printing.RowTextLayout | projet-poo-g22/Grid.cpp:160-168 | A row of n cells prints as 2n+1 characters: cell j's token at 2j, a space at 2j+1, and a newline at 2n. |
| Printing.RenderLength | testunit/Grid.h:259-272 | A rows x cols grid prints as rows*(2*cols+1)+24 characters. |
| Printing.RenderEndsWithSeparator | testunit/Grid.h:271 | The printed text ends with 23 dashes and a newline, whatever the width. |
| Printing.TokenizeRender | projet-poo-g22/Grid.cpp:158-171 | Reading the printed text token by token yields the cells' tokens in row-major order, then the separator as one more token. |
| Printing.RenderRoundTrip | projet-poo-g22/Grid.cpp:24-51 | Loading the printed text of a rows x cols grid reproduces the grid. The separator token is never read. |
| Patterns.BlockIsStillLife | testunit/test.cpp:168-192 | The 2x2 block on a 5 x 10 grid is a still life. |
| Patterns.VerticalBlinkerStep | testunit/test.cpp:82-118 | The vertical blinker of the test becomes the horizontal one after one generation. |
| Patterns.HorizontalBlinkerStep | testunit/test.cpp:82-118 | The horizontal blinker becomes the vertical one after one generation. |
| Patterns.BlinkerPhasesDiffer | testunit/test.cpp:195-224 | The two blinker phases differ at cell (0, 2). |
| Patterns.BlinkerOscillates | testunit/test.cpp:195-224 | The blinker has period 2 and neither phase is a still life, so `HasStableState` stays false while it runs. |
| Scenarios.FileTokensLoad | testunit/test.cpp:44-79 | A 5 x 10 file of "1" and "0" tokens loads as the pattern it describes. |
| Scenarios.PrintTestGridRendering | testunit/test.cpp:246-273 | The printing test's grid prints as exactly the expected five lines and the separator. |

## Left out

- `Grid::draw` is not modelled: it draws through SFML with float positions.
- The `cout` messages in `saveState`, `update` and `undo` are not modelled: they are diagnostics with no effect on the grid.
- Opening the file and extracting tokens with `>>` are not modelled. `InitializeFromInput` takes the token sequence, plus a flag that stands for the `runtime_error` thrown when the open fails. `Printing.Tokenize` models the whitespace split, so that the print/load round trip can be stated.
- `ConsoleInterface`, `Game` and `Button` are not part of this model: they are I/O drivers and SFML widgets that only call the engine.
- The Google Test harness is not modelled as code. Its expectations are the lemmas of `Patterns` and the methods of `Scenarios`.
- A toroidal neighbour count is not part of this model. The code counts with bounded edges only.
- GridEngine.Grid.constructor: takes natural dimensions. A negative dimension, converted to an unsigned size, makes the row vector `vector<CellState>(cols, VIDE)` or `cells.resize(rows, ...)` throw; that path is not modelled.
- GridEngine.Grid.ToggleCell: requires a non-zero cell size, because C++ division by zero is undefined behaviour.
- GridEngine.Grid.GetCellState: requires an in-range position, because the C++ getter indexes without a bounds check.
- C++ `int` is 32 bits wide, but all integers here are unbounded. Overflow in `x + i` or in `mouseX / cellSize` is not modelled.
- GridEngine.Grid.Undo: returns nothing, as the code does; it does not report whether a state was restored.
- Input.MissingTokensLoadEmpty: a short stream gives the remaining cells Vide, as the code does; a loader that left them at their prior value, or rejected the stream, is not modelled.
