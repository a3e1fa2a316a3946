/** The canonical text rendering of a grid (what `print` writes to the
    console and what the console driver appends to its output file), and
    the proof that reading that text back as a token stream reproduces the
    grid. */
module Printing {
  import opened Cellule
  import opened Input

  /** The frame separator: 23 dashes, whatever the width of the grid. */
  const Dashes: string := "-----------------------"

  /** The token written for one cell. */
  function CellToken(s: CellState): (t: string)
    ensures |t| == 1
    ensures TokenState(t) == s
  {
    match s
    case Vivant => "1"
    case Obstacle => "X"
    case Vide => "0"
  }

  /** One row: each cell's token followed by a space, then a newline. */
  function RowText(row: seq<CellState>): string
  {
    if row == [] then "\n" else CellToken(row[0]) + " " + RowText(row[1..])
  }

  /** The whole grid, row after row, then the separator line. */
  function Render(g: Matrix): string
  {
    if g == [] then Dashes + "\n" else RowText(g[0]) + Render(g[1..])
  }

  /** A row of n cells renders to 2 * n + 1 characters, ending in a newline. */
  lemma {:induction false} RowTextLength(row: seq<CellState>)
    ensures |RowText(row)| == 2 * |row| + 1 && RowText(row)[2 * |row|] == '\n'
  {
    if row != [] {
      RowTextLength(row[1..]);
      assert RowText(row) == CellToken(row[0]) + " " + RowText(row[1..]);
    }
  }

  /** Cell j of a row is rendered at character 2 * j, followed by a space. */
  lemma {:induction false} RowTextAt(row: seq<CellState>, j: nat)
    requires j < |row|
    ensures 2 * j + 1 < |RowText(row)|
    ensures RowText(row)[2 * j] == CellToken(row[j])[0] && RowText(row)[2 * j + 1] == ' '
  {
    RowTextLength(row);
    var head, u := CellToken(row[0]) + " ", RowText(row[1..]);
    assert RowText(row) == head + u && |head| == 2;
    if j > 0 {
      RowTextAt(row[1..], j - 1);
      assert row[1..][j - 1] == row[j];
      assert (head + u)[2 * j] == u[2 * (j - 1)];
      assert (head + u)[2 * j + 1] == u[2 * (j - 1) + 1];
    }
  }

  /** Character by character: token, space, token, space, ..., newline. */
  lemma RowTextLayout(row: seq<CellState>)
    ensures |RowText(row)| == 2 * |row| + 1
    ensures forall j :: 0 <= j < |row| ==>
              RowText(row)[2 * j] == CellToken(row[j])[0] && RowText(row)[2 * j + 1] == ' '
    ensures RowText(row)[2 * |row|] == '\n'
  {
    RowTextLength(row);
    forall j | 0 <= j < |row|
      ensures RowText(row)[2 * j] == CellToken(row[j])[0] && RowText(row)[2 * j + 1] == ' '
    {
      RowTextAt(row, j);
    }
  }

  /** A rows x cols grid renders to rows lines of 2 * cols + 1 characters
      and the 24-character separator line. */
  lemma {:induction false} RenderLength(g: Matrix, rows: nat, cols: nat)
    requires Shaped(g, rows, cols)
    ensures |Render(g)| == rows * (2 * cols + 1) + 24
  {
    if g != [] {
      RowTextLength(g[0]);
      RenderLength(g[1..], rows - 1, cols);
      RowMajorStep(rows, 2 * cols + 1);
    }
  }

  /** The rendering ends with the separator line. */
  lemma {:induction false} RenderEndsWithSeparator(g: Matrix)
    ensures |Render(g)| >= 24 && Render(g)[|Render(g)| - 24..] == Dashes + "\n"
  {
    if g != [] {
      RenderEndsWithSeparator(g[1..]);
      var t, u := Render(g), Render(g[1..]);
      assert t == RowText(g[0]) + u;
      assert t[|t| - 24..] == u[|u| - 24..];
    }
  }

  // Reading text back as the `>>` operator of an input stream does.

  /** The characters `>>` skips between tokens. */
  predicate IsSpace(c: char)
  {
    c == ' ' || c == '\t' || c == '\n' || c == '\r' || c == '\U{B}' || c == '\U{C}'
  }

  /** The longest prefix of `s` without whitespace. */
  function Word(s: string): (w: string)
    ensures |w| <= |s| && w == s[..|w|]
    ensures s != [] && !IsSpace(s[0]) ==> |w| > 0
    ensures forall k :: 0 <= k < |w| ==> !IsSpace(w[k])
  {
    if s == [] || IsSpace(s[0]) then [] else [s[0]] + Word(s[1..])
  }

  /** The whitespace-separated tokens of `s`, in order. */
  function Tokenize(s: string): seq<string>
    decreases |s|
  {
    if s == [] then []
    else if IsSpace(s[0]) then Tokenize(s[1..])
    else
      var w := Word(s);
      [w] + Tokenize(s[|w|..])
  }

  /** The tokens of a row, in order. */
  function RowTokens(row: seq<CellState>): (ts: seq<string>)
    ensures |ts| == |row|
  {
    if row == [] then [] else [CellToken(row[0])] + RowTokens(row[1..])
  }

  /** Token j of a row is the token of cell j. */
  lemma {:induction false} RowTokensAt(row: seq<CellState>, j: nat)
    requires j < |row|
    ensures RowTokens(row)[j] == CellToken(row[j])
  {
    if j > 0 {
      RowTokensAt(row[1..], j - 1);
    }
  }

  /** The tokens of a grid, row-major. */
  function Flat(g: Matrix): seq<string>
  {
    if g == [] then [] else RowTokens(g[0]) + Flat(g[1..])
  }

  /** A word ends at the first whitespace. */
  lemma {:induction false} WordStopsAtSpace(w: string, c: char, rest: string)
    requires forall k :: 0 <= k < |w| ==> !IsSpace(w[k])
    requires IsSpace(c)
    ensures Word(w + [c] + rest) == w
  {
    if w != [] {
      assert (w + [c] + rest)[1..] == w[1..] + [c] + rest;
      WordStopsAtSpace(w[1..], c, rest);
    } else {
      assert (w + [c] + rest)[0] == c;
    }
  }

  /** A non-empty word followed by whitespace is read as one token. */
  lemma TokenizeWord(w: string, c: char, rest: string)
    requires w != [] && forall k :: 0 <= k < |w| ==> !IsSpace(w[k])
    requires IsSpace(c)
    ensures Tokenize(w + [c] + rest) == [w] + Tokenize(rest)
  {
    var s := w + [c] + rest;
    WordStopsAtSpace(w, c, rest);
    assert s[0] == w[0];
    assert s[|w|..] == [c] + rest;
    assert ([c] + rest)[1..] == rest;
  }

  /** A rendered row reads back as its cells' tokens. */
  lemma {:induction false} TokenizeRow(row: seq<CellState>, rest: string)
    ensures Tokenize(RowText(row) + rest) == RowTokens(row) + Tokenize(rest)
  {
    if row == [] {
      assert ("\n" + rest)[1..] == rest;
    } else {
      var t, v := CellToken(row[0]), RowText(row[1..]);
      var u := v + rest;
      assert RowText(row) + rest == t + [' '] + u by {
        assert RowText(row) == t + [' '] + v;
      }
      TokenizeWord(t, ' ', u);
      TokenizeRow(row[1..], rest);
      assert RowTokens(row) == [t] + RowTokens(row[1..]);
    }
  }

  /** A rendered grid reads back as its tokens, row-major, followed by the
      separator as one more token. */
  lemma {:induction false} TokenizeRender(g: Matrix)
    ensures Tokenize(Render(g)) == Flat(g) + [Dashes]
  {
    if g == [] {
      TokenizeWord(Dashes, '\n', "");
      assert Dashes + "\n" == Dashes + ['\n'] + "";
    } else {
      TokenizeRow(g[0], Render(g[1..]));
      TokenizeRender(g[1..]);
    }
  }

  /** Token i * cols + j of a rows x cols grid is the token of cell (i, j). */
  lemma {:induction false} FlatAt(g: Matrix, rows: nat, cols: nat, i: nat, j: nat)
    requires Shaped(g, rows, cols) && i < rows && j < cols
    ensures i * cols + j < |Flat(g)| && Flat(g)[i * cols + j] == CellToken(g[i][j])
  {
    FlatLength(g, rows, cols);
    Input.CellIndexInRange(rows, cols, i, j);
    var head, tail := RowTokens(g[0]), Flat(g[1..]);
    assert Flat(g) == head + tail && |head| == cols;
    var k := i * cols + j;
    if i == 0 {
      assert k == j;
      RowTokensAt(g[0], j);
    } else {
      var k' := (i - 1) * cols + j;
      NextRowIndex(cols, i, j);
      assert k == cols + k';
      FlatAt(g[1..], rows - 1, cols, i - 1, j);
      assert g[1..][i - 1] == g[i];
      assert (head + tail)[k] == tail[k'];
    }
  }

  /** Skipping one row of `cols` tokens. */
  lemma NextRowIndex(cols: nat, i: nat, j: nat)
    requires i > 0
    ensures i * cols + j == cols + ((i - 1) * cols + j)
  {
  }

  /** A rows x cols grid has rows * cols tokens. */
  lemma {:induction false} FlatLength(g: Matrix, rows: nat, cols: nat)
    requires Shaped(g, rows, cols)
    ensures |Flat(g)| == rows * cols
  {
    if g != [] {
      FlatLength(g[1..], rows - 1, cols);
      RowMajorStep(rows, cols);
    }
  }

  /** Loading a grid's own tokens, whatever follows them, gives the grid back. */
  lemma DecodeFlat(g: Matrix, rows: nat, cols: nat, extra: seq<string>)
    requires Shaped(g, rows, cols)
    ensures Decoded(Flat(g) + extra, rows, cols) == g
  {
    var d := Decoded(Flat(g) + extra, rows, cols);
    forall i, j | 0 <= i < rows && 0 <= j < cols
      ensures d[i][j] == g[i][j]
    {
      DecodeFlatAt(g, rows, cols, extra, i, j);
    }
    SameCells(d, g, rows, cols);
  }

  /** Cell (i, j) is loaded from its own token. */
  lemma DecodeFlatAt(g: Matrix, rows: nat, cols: nat, extra: seq<string>, i: nat, j: nat)
    requires Shaped(g, rows, cols) && i < rows && j < cols
    ensures Decoded(Flat(g) + extra, rows, cols)[i][j] == g[i][j]
  {
    var tokens := Flat(g) + extra;
    FlatAt(g, rows, cols, i, j);
    var k := i * cols + j;
    assert tokens[k] == Flat(g)[k];
    assert Decoded(tokens, rows, cols)[i][j] == TokenState(TokenAt(tokens, k));
  }

  /** Everything the console rendering promises, in one place: its
      length, its separator line and the load round trip. */
  lemma RenderFacts(g: Matrix, rows: nat, cols: nat, out: string)
    requires Shaped(g, rows, cols) && out == Render(g)
    ensures |out| == rows * (2 * cols + 1) + 24
    ensures out[|out| - 24..] == Dashes + "\n"
    ensures Decoded(Tokenize(out), rows, cols) == g
  {
    RenderLength(g, rows, cols);
    RenderEndsWithSeparator(g);
    RenderRoundTrip(g, rows, cols);
  }

  /** Loading what `print` wrote reproduces the grid: every cell's token is
      read back at its row-major position, and the separator line, the
      token after the last cell, is never read. */
  lemma RenderRoundTrip(g: Matrix, rows: nat, cols: nat)
    requires Shaped(g, rows, cols)
    ensures Decoded(Tokenize(Render(g)), rows, cols) == g
  {
    TokenizeRender(g);
    DecodeFlat(g, rows, cols, [Dashes]);
  }
}
