/** The three states a cell of the grid can be in. There is no separate
    "dead" state: a cell that dies becomes Vide. */
module Cellule {

  datatype CellState = Vide | Vivant | Obstacle

  /** A grid: a sequence of rows, each a sequence of cells (row-major). */
  type Matrix = seq<seq<CellState>>

  /** `g` has exactly `rows` rows of exactly `cols` cells each. */
  predicate Shaped(g: Matrix, rows: nat, cols: nat)
  {
    |g| == rows && forall i :: 0 <= i < |g| ==> |g[i]| == cols
  }

  /** Two grids of the same shape that agree on every cell are equal. */
  lemma SameCells(a: Matrix, b: Matrix, rows: nat, cols: nat)
    requires Shaped(a, rows, cols) && Shaped(b, rows, cols)
    requires forall i, j :: 0 <= i < rows && 0 <= j < cols ==> a[i][j] == b[i][j]
    ensures a == b
  {
    forall i | 0 <= i < rows
      ensures a[i] == b[i]
    {
      assert forall j :: 0 <= j < cols ==> a[i][j] == b[i][j];
    }
  }

  /** Row-major indexing: `rows` rows of `cols` cells are one row of `cols`
      cells followed by rows - 1 more. */
  lemma RowMajorStep(rows: nat, cols: nat)
    requires rows > 0
    ensures rows * cols == (rows - 1) * cols + cols
  {
  }
}
