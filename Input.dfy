/** How a whitespace-separated token stream becomes a grid: one token per
    cell, row-major. */
module Input {
  import opened Cellule

  /** "1" is a live cell, "X" or "x" an obstacle; every other token,
      "0" and the empty string included, is an empty cell. */
  function TokenState(token: string): (s: CellState)
    ensures s == Vivant <==> token == "1"
    ensures s == Obstacle <==> token == "X" || token == "x"
  {
    if token == "1" then Vivant
    else if token == "X" || token == "x" then Obstacle
    else Vide
  }

  /** The `k`-th extraction from the stream: once the tokens run out the
      extraction fails and leaves its freshly declared string empty. */
  function TokenAt(tokens: seq<string>, k: nat): (t: string)
    ensures k < |tokens| ==> t == tokens[k]
    ensures k >= |tokens| ==> t == ""
  {
    if k < |tokens| then tokens[k] else ""
  }

  /** The grid that loading `tokens` into a rows x cols grid produces:
      cell (i, j) is read from token i * cols + j. */
  function Decoded(tokens: seq<string>, rows: nat, cols: nat): (g: Matrix)
    ensures Shaped(g, rows, cols)
  {
    seq(rows, i requires 0 <= i < rows =>
      seq(cols, j requires 0 <= j < cols => TokenState(TokenAt(tokens, i * cols + j))))
  }

  /** Cells past the end of the stream load as Vide. */
  lemma MissingTokensLoadEmpty(tokens: seq<string>, rows: nat, cols: nat, i: nat, j: nat)
    requires i < rows && j < cols && |tokens| <= i * cols + j
    ensures Decoded(tokens, rows, cols)[i][j] == Vide
  {
    assert Decoded(tokens, rows, cols)[i][j] == TokenState(TokenAt(tokens, i * cols + j));
  }

  /** Tokens after the first rows * cols are never read. */
  lemma ExtraTokensIgnored(tokens: seq<string>, extra: seq<string>, rows: nat, cols: nat)
    requires |tokens| >= rows * cols
    ensures Decoded(tokens + extra, rows, cols) == Decoded(tokens, rows, cols)
  {
    forall i, j | 0 <= i < rows && 0 <= j < cols
      ensures Decoded(tokens + extra, rows, cols)[i][j] == Decoded(tokens, rows, cols)[i][j]
    {
      CellIndexInRange(rows, cols, i, j);
      assert TokenAt(tokens + extra, i * cols + j) == TokenAt(tokens, i * cols + j);
    }
    SameCells(Decoded(tokens + extra, rows, cols), Decoded(tokens, rows, cols), rows, cols);
  }

  /** Row-major cell indices lie below rows * cols. */
  lemma CellIndexInRange(rows: nat, cols: nat, i: nat, j: nat)
    requires i < rows && j < cols
    ensures i * cols + j < rows * cols
  {
    assert (i + 1) * cols <= rows * cols;
  }
}
