/** The simulation grid: the current cells, a stack of earlier generations
    for undo, and the operations the console and graphical drivers call. */
module GridEngine {
  import opened Cellule
  import opened Life
  import opened Input
  import opened Printing
  import opened CppInt

  /** How a load ends: the stream could not be opened (the
      `runtime_error` the loader throws), or the grid was read. */
  datatype LoadOutcome = Loaded | OpenFailed

  class Grid {
    var cells: Matrix
    /** Earlier generations; the top of the stack is the last element. */
    var history: seq<Matrix>
    const rows: nat
    const cols: nat

    /** The current grid and every saved generation are rows x cols. */
    ghost predicate Valid()
      reads this
    {
      Shaped(cells, rows, cols) &&
      forall k :: 0 <= k < |history| ==> Shaped(history[k], rows, cols)
    }

    /** An all-empty rows x cols grid with no history. */
    constructor (r: nat, c: nat)
      ensures Valid() && rows == r && cols == c
      ensures forall i, j :: 0 <= i < r && 0 <= j < c ==> cells[i][j] == Vide
      ensures history == []
    {
      rows, cols := r, c;
      cells := seq(r, _ => seq(c, _ => Vide));
      history := [];
    }

    function GetRows(): (r: nat)
      reads this
      requires Valid()
      ensures r == |cells|
    {
      rows
    }

    function GetCols(): (c: nat)
      reads this
      requires Valid()
      ensures c == cols
      ensures forall i :: 0 <= i < |cells| ==> |cells[i]| == c
    {
      cols
    }

    /** No bounds check: the caller keeps (row, col) on the grid. */
    function GetCellState(row: nat, col: nat): (s: CellState)
      reads this
      requires Valid() && row < rows && col < cols
      ensures s == cells[row][col]
    {
      cells[row][col]
    }

    /** Loads the grid from a token stream, one token per cell, row-major.
        `tokens` are the whitespace-separated tokens of the file and
        `openFailed` says that the file could not be opened; then nothing
        changes. Otherwise the history is emptied first, missing tokens
        load as Vide and extra ones are not read. */
    method InitializeFromInput(tokens: seq<string>, openFailed: bool) returns (outcome: LoadOutcome)
      requires Valid()
      modifies this
      ensures Valid()
      ensures openFailed ==> outcome == OpenFailed && cells == old(cells) && history == old(history)
      ensures !openFailed ==> outcome == Loaded && cells == Decoded(tokens, rows, cols) && history == []
      ensures !openFailed ==> !HasStableState()
    {
      if openFailed {
        return OpenFailed;
      }
      history := [];
      ghost var target := Decoded(tokens, rows, cols);
      var k := 0;  // tokens extracted so far
      for i := 0 to rows
        invariant k == i * cols
        invariant Shaped(cells, rows, cols) && history == []
        invariant forall a, b :: 0 <= a < i && 0 <= b < cols ==> cells[a][b] == target[a][b]
      {
        for j := 0 to cols
          invariant k == i * cols + j
          invariant Shaped(cells, rows, cols) && history == []
          invariant forall a, b :: 0 <= a < i && 0 <= b < cols ==> cells[a][b] == target[a][b]
          invariant forall b :: 0 <= b < j ==> cells[i][b] == target[i][b]
        {
          var token := if k < |tokens| then tokens[k] else "";
          assert target[i][j] == TokenState(TokenAt(tokens, k));
          k := k + 1;
          var s;
          if token == "1" {
            s := Vivant;
          } else if token == "X" || token == "x" {
            s := Obstacle;
          } else {
            s := Vide;
          }
          cells := cells[i := cells[i][j := s]];
        }
        RowMajorStep(i + 1, cols);
      }
      SameCells(cells, target, rows, cols);
      outcome := Loaded;
    }

    /** The number of live cells among the eight positions around (x, y)
        that lie on the grid. */
    method CountLivingNeighbors(x: int, y: int) returns (livingNeighbors: int)
      requires Valid()
      ensures livingNeighbors == LivingNeighbors(cells, x, y)
      ensures 0 <= livingNeighbors <= 8
    {
      ghost var g := cells;
      livingNeighbors := 0;
      for i := -1 to 2
        invariant livingNeighbors == Scanned(g, x, y, 3 * (i + 1))
      {
        for j := -1 to 2
          invariant livingNeighbors == Scanned(g, x, y, 3 * (i + 1) + (j + 1))
        {
          ScannedNext(g, x, y, i, j);
          if i == 0 && j == 0 {
            continue;
          }
          var newX, newY := x + i, y + j;
          if newX >= 0 && newX < rows && newY >= 0 && newY < cols {
            if cells[newX][newY] == Vivant {
              livingNeighbors := livingNeighbors + 1;
            }
          }
        }
      }
      ScannedAll(g, x, y);
    }

    /** Pushes a copy of the current grid onto the history. */
    method SaveState()
      requires Valid()
      modifies this
      ensures Valid()
      ensures cells == old(cells) && history == old(history) + [old(cells)]
    {
      history := history + [cells];
    }

    /** Advances one generation: the old grid is saved, then every cell
        that is not an obstacle gets the rule applied to its neighbour count
        in the old grid, all cells at once. Right afterwards the grid is
        stable exactly when the old grid was a still life. */
    method Update()
      requires Valid()
      modifies this
      ensures Valid()
      ensures history == old(history) + [old(cells)]
      ensures cells == Step(old(cells))
      ensures HasStableState() <==> StillLife(old(cells))
    {
      SaveState();
      ghost var g := cells;
      ghost var next := Step(g);
      StepShaped(g, rows, cols);
      var newCells := cells;
      for i := 0 to rows
        modifies {}
        invariant |newCells| == rows
        invariant forall a :: 0 <= a < i ==> newCells[a] == next[a]
        invariant forall a :: i <= a < rows ==> newCells[a] == g[a]
      {
        var newRow := newCells[i];
        for j := 0 to cols
          modifies {}
          invariant |newRow| == cols
          invariant forall b :: 0 <= b < j ==> newRow[b] == next[i][b]
          invariant forall b :: j <= b < cols ==> newRow[b] == g[i][b]
        {
          StepAt(g, i, j);
          ghost var before := newRow;
          if cells[i][j] == Obstacle {
            assert newRow[j] == next[i][j];
            continue;
          }
          var livingNeighbors := CountLivingNeighbors(i, j);
          if cells[i][j] == Vivant {
            if livingNeighbors < 2 || livingNeighbors > 3 {
              newRow := newRow[j := Vide];
            }
          } else {
            if livingNeighbors == 3 {
              newRow := newRow[j := Vivant];
            }
          }
          assert newRow[j] == next[i][j];
          assert forall b :: 0 <= b < cols && b != j ==> newRow[b] == before[b];
        }
        newCells := newCells[i := newRow];
      }
      assert newCells == next;
      cells := newCells;
      assert history[|history| - 1] == g;
      assert HasStableState() <==> next == g;
    }

    /** Restores the generation on top of the history and pops it; with an
        empty history nothing changes. */
    method Undo()
      requires Valid()
      modifies this
      ensures Valid()
      ensures old(history) == [] ==> cells == old(cells) && history == []
      ensures old(history) != [] ==>
                cells == old(history)[|old(history)| - 1] &&
                history == old(history)[..|old(history)| - 1]
    {
      if history != [] {
        cells := history[|history| - 1];
        history := history[..|history| - 1];
      }
    }

    /** Whether the last update changed nothing: false without history,
        otherwise whether the grid equals the top of the history. */
    function HasStableState(): (stable: bool)
      reads this
      ensures history == [] ==> !stable
      ensures history != [] ==> (stable <==> cells == history[|history| - 1])
    {
      if history == [] then false else cells == history[|history| - 1]
    }

    /** Sets the cell under the pixel (mouseX, mouseY), with C++ integer
        division by the cell size. Clicks off the grid are ignored, and an
        obstacle can only be overwritten by another obstacle. */
    method ToggleCell(mouseX: int, mouseY: int, cellSize: int, state: CellState)
      requires Valid() && cellSize != 0
      modifies this
      ensures Valid() && history == old(history)
      ensures var row, col := TruncDiv(mouseY, cellSize), TruncDiv(mouseX, cellSize);
        if 0 <= row < rows && 0 <= col < cols && (state == Obstacle || old(cells)[row][col] != Obstacle)
        then cells == old(cells)[row := old(cells)[row][col := state]]
        else cells == old(cells)
      ensures forall i, j :: 0 <= i < rows && 0 <= j < cols && old(cells)[i][j] == Obstacle ==>
                cells[i][j] == Obstacle
      ensures forall i, j ::
                0 <= i < rows && 0 <= j < cols && (i, j) != (TruncDiv(mouseY, cellSize), TruncDiv(mouseX, cellSize))
                ==> cells[i][j] == old(cells)[i][j]
    {
      var col := TruncDiv(mouseX, cellSize);
      var row := TruncDiv(mouseY, cellSize);
      if row >= 0 && row < rows && col >= 0 && col < cols {
        if state == Obstacle {
          cells := cells[row := cells[row][col := Obstacle]];
        } else if cells[row][col] != Obstacle {
          cells := cells[row := cells[row][col := state]];
        }
      }
    }

    /** The console rendering of the grid: rows lines of 2 * cols + 1
        characters, then 23 dashes and a newline. Loading it back yields
        the same grid. */
    function Print(): (out: string)
      reads this
      requires Valid()
      ensures |out| == rows * (2 * cols + 1) + 24
      ensures out[|out| - 24..] == Dashes + "\n"
      ensures Decoded(Tokenize(out), rows, cols) == cells
    {
      var out := Render(cells);
      RenderFacts(cells, rows, cols, out);
      out
    }
  }
}
