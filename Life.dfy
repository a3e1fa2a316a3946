/** The transition rule of the grid: bounded-edge Moore neighbourhood,
    Conway's B3/S23 rule, obstacles frozen. These functions are the
    specification that the methods of GridEngine.Grid are proved against. */
module Life {
  import opened Cellule

  /** 1 when (r, c) lies inside `g` and holds a live cell, 0 otherwise:
      positions off the grid count as absent (no wraparound), and Vide and
      Obstacle cells never count. */
  function AliveAt(g: Matrix, r: int, c: int): (n: nat)
    ensures n <= 1
    ensures n == 1 <==> 0 <= r < |g| && 0 <= c < |g[r]| && g[r][c] == Vivant
  {
    if 0 <= r < |g| && 0 <= c < |g[r]| && g[r][c] == Vivant then 1 else 0
  }

  /** The number of live cells among the eight positions around (x, y). */
  function LivingNeighbors(g: Matrix, x: int, y: int): (n: nat)
    ensures n <= 8
  {
    AliveAt(g, x - 1, y - 1) + AliveAt(g, x - 1, y) + AliveAt(g, x - 1, y + 1) +
    AliveAt(g, x, y - 1)                            + AliveAt(g, x, y + 1) +
    AliveAt(g, x + 1, y - 1) + AliveAt(g, x + 1, y) + AliveAt(g, x + 1, y + 1)
  }

  /** The live cells found after visiting the first `k` of the nine offsets
      (di, dj) in {-1, 0, 1}², taken row by row, skipping (0, 0): the order
      in which the counting loop visits them. */
  function Scanned(g: Matrix, x: int, y: int, k: nat): (n: nat)
    requires k <= 9
    ensures n <= k
  {
    if k == 0 then 0 else Scanned(g, x, y, k - 1) + Visited(g, x, y, k - 1)
  }

  /** What visiting the offset at scan position `k` adds to the count. */
  function Visited(g: Matrix, x: int, y: int, k: nat): (n: nat)
    requires k < 9
    ensures n <= 1
  {
    var di := if k < 3 then -1 else if k < 6 then 0 else 1;
    var dj := k - 3 * (di + 1) - 1;
    if di == 0 && dj == 0 then 0 else AliveAt(g, x + di, y + dj)
  }

  /** Visiting offset (di, dj) advances the scan by one position. */
  lemma ScannedNext(g: Matrix, x: int, y: int, di: int, dj: int)
    requires -1 <= di <= 1 && -1 <= dj <= 1
    ensures Scanned(g, x, y, 3 * (di + 1) + (dj + 1) + 1) ==
            Scanned(g, x, y, 3 * (di + 1) + (dj + 1)) + (if di == 0 && dj == 0 then 0 else AliveAt(g, x + di, y + dj))
  {
  }

  /** Visiting all nine offsets in scan order counts exactly the neighbours. */
  lemma ScannedAll(g: Matrix, x: int, y: int)
    ensures Scanned(g, x, y, 9) == LivingNeighbors(g, x, y)
  {
    assert Scanned(g, x, y, 1) == AliveAt(g, x - 1, y - 1);
    assert Scanned(g, x, y, 2) == Scanned(g, x, y, 1) + AliveAt(g, x - 1, y);
    assert Scanned(g, x, y, 3) == Scanned(g, x, y, 2) + AliveAt(g, x - 1, y + 1);
    assert Scanned(g, x, y, 4) == Scanned(g, x, y, 3) + AliveAt(g, x, y - 1);
    assert Scanned(g, x, y, 5) == Scanned(g, x, y, 4);
    assert Scanned(g, x, y, 6) == Scanned(g, x, y, 5) + AliveAt(g, x, y + 1);
    assert Scanned(g, x, y, 7) == Scanned(g, x, y, 6) + AliveAt(g, x + 1, y - 1);
    assert Scanned(g, x, y, 8) == Scanned(g, x, y, 7) + AliveAt(g, x + 1, y);
  }

  /** The next state of one cell with `n` live neighbours. */
  function Rule(s: CellState, n: nat): (t: CellState)
    ensures s == Obstacle <==> t == Obstacle
    ensures s == Vivant ==> (t == Vivant <==> n == 2 || n == 3)
    ensures s == Vide ==> (t == Vivant <==> n == 3)
  {
    match s
    case Obstacle => Obstacle
    case Vivant => if n < 2 || n > 3 then Vide else Vivant
    case Vide => if n == 3 then Vivant else Vide
  }

  /** One generation: every cell gets the rule applied to its own state and
      to its neighbour count in `g`, all read from the same old grid. */
  function Step(g: Matrix): (r: Matrix)
    ensures |r| == |g| && forall i :: 0 <= i < |g| ==> |r[i]| == |g[i]|
  {
    seq(|g|, i requires 0 <= i < |g| =>
      seq(|g[i]|, j requires 0 <= j < |g[i]| => Rule(g[i][j], LivingNeighbors(g, i, j))))
  }

  /** Cell (i, j) of the next generation, read off the comprehension. */
  lemma StepAt(g: Matrix, i: nat, j: nat)
    requires i < |g| && j < |g[i]|
    ensures Step(g)[i][j] == Rule(g[i][j], LivingNeighbors(g, i, j))
  {
  }

  /** A grid the rule leaves unchanged. */
  predicate StillLife(g: Matrix)
  {
    Step(g) == g
  }

  /** Only live cells are seen by the count: two grids of the same shape
      with the same live cells give every position the same count, however
      their Vide and Obstacle cells differ. */
  lemma NeighborsSeeOnlyAlive(g: Matrix, h: Matrix, rows: nat, cols: nat, x: int, y: int)
    requires Shaped(g, rows, cols) && Shaped(h, rows, cols)
    requires forall i, j :: 0 <= i < rows && 0 <= j < cols ==> (g[i][j] == Vivant <==> h[i][j] == Vivant)
    ensures LivingNeighbors(g, x, y) == LivingNeighbors(h, x, y)
  {
  }

  /** Without wraparound a corner cell has only three neighbours on the grid. */
  lemma CornerAtMostThree(g: Matrix, rows: nat, cols: nat)
    requires Shaped(g, rows, cols) && rows > 0 && cols > 0
    ensures LivingNeighbors(g, 0, 0) <= 3
    ensures LivingNeighbors(g, 0, cols - 1) <= 3
    ensures LivingNeighbors(g, rows - 1, 0) <= 3
    ensures LivingNeighbors(g, rows - 1, cols - 1) <= 3
  {
  }

  /** A step keeps the shape of the grid. */
  lemma StepShaped(g: Matrix, rows: nat, cols: nat)
    requires Shaped(g, rows, cols)
    ensures Shaped(Step(g), rows, cols)
  {
  }

  /** A step neither creates nor removes an obstacle. */
  lemma StepKeepsObstacles(g: Matrix, i: nat, j: nat)
    requires i < |g| && j < |g[i]|
    ensures Step(g)[i][j] == Obstacle <==> g[i][j] == Obstacle
  {
  }

  /** A step is local: a cell's next state depends only on its own state and
      on which cells of its 3x3 window are alive in the old grid. */
  lemma StepIsLocal(g: Matrix, h: Matrix, rows: nat, cols: nat, i: nat, j: nat)
    requires Shaped(g, rows, cols) && Shaped(h, rows, cols) && i < rows && j < cols
    requires g[i][j] == h[i][j]
    requires forall r, c :: i - 1 <= r <= i + 1 && j - 1 <= c <= j + 1 ==> AliveAt(g, r, c) == AliveAt(h, r, c)
    ensures Step(g)[i][j] == Step(h)[i][j]
  {
    assert LivingNeighbors(g, i, j) == LivingNeighbors(h, i, j);
  }
}
