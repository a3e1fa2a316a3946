/** The unit tests' expectations, stated as verified client code of
    GridEngine.Grid on a 5 x 10 grid. */
module Scenarios {
  import opened Cellule
  import opened Life
  import opened Input
  import opened Printing
  import opened Patterns
  import opened GridEngine

  /** The 50 tokens of a 5 x 10 file: "1" where `alive` holds, "0" elsewhere. */
  function FileTokens(alive: (int, int) -> bool): (ts: seq<string>)
    ensures |ts| == 50
  {
    seq(50, k => if alive(k / 10, k % 10) then "1" else "0")
  }

  /** Such a file loads as the pattern it describes. */
  lemma FileTokensLoad(alive: (int, int) -> bool)
    ensures Decoded(FileTokens(alive), 5, 10) == Pattern(5, 10, alive)
  {
    var d, p := Decoded(FileTokens(alive), 5, 10), Pattern(5, 10, alive);
    forall i, j | 0 <= i < 5 && 0 <= j < 10
      ensures d[i][j] == p[i][j]
    {
      var k := i * 10 + j;
      assert k / 10 == i && k % 10 == j;
      assert d[i][j] == TokenState(TokenAt(FileTokens(alive), k));
    }
    SameCells(d, p, 5, 10);
  }

  /** An update followed by an undo restores both the cells and the history. */
  method UpdateThenUndo(g: Grid)
    requires g.Valid()
    modifies g
    ensures g.Valid() && g.cells == old(g.cells) && g.history == old(g.history)
  {
    g.Update();
    g.Undo();
    assert old(g.history) + [old(g.cells)] == g.history + [g.cells];
  }

  method ConstructorScenario()
  {
    var g := new Grid(5, 10);
    assert g.GetRows() == 5 && g.GetCols() == 10;
    assert forall i, j :: 0 <= i < 5 && 0 <= j < 10 ==> g.GetCellState(i, j) == Vide;
    assert !g.HasStableState();
  }

  method LoadScenario()
  {
    var g := new Grid(5, 10);
    var tokens := seq(50, k => if k == 2 || k == 13 || k == 21 || k == 23 then "1" else if k == 22 then "X" else "0");
    var outcome := g.InitializeFromInput(tokens, false);
    assert outcome == Loaded;
    var d := Decoded(tokens, 5, 10);
    assert d[0][2] == TokenState(TokenAt(tokens, 2)) == Vivant;
    assert d[1][3] == TokenState(TokenAt(tokens, 13)) == Vivant;
    assert d[2][1] == TokenState(TokenAt(tokens, 21)) == Vivant;
    assert d[2][2] == TokenState(TokenAt(tokens, 22)) == Obstacle;
    assert d[2][3] == TokenState(TokenAt(tokens, 23)) == Vivant;
    assert d[4][9] == TokenState(TokenAt(tokens, 49)) == Vide;
  }

  method FailedLoadScenario(g: Grid, tokens: seq<string>)
    requires g.Valid()
    modifies g
  {
    ghost var before := g.cells;
    var outcome := g.InitializeFromInput(tokens, true);
    assert outcome == OpenFailed && g.cells == before;
  }

  method BlinkerScenario()
  {
    var g := new Grid(5, 10);
    FileTokensLoad(IsVertical);
    var _ := g.InitializeFromInput(FileTokens(IsVertical), false);
    assert g.cells == VerticalBlinker();
    assert !g.HasStableState();
    VerticalBlinkerStep();
    HorizontalBlinkerStep();
    BlinkerPhasesDiffer();
    g.Update();
    assert g.cells == HorizontalBlinker();
    assert !g.HasStableState();
    g.Update();
    assert g.cells == VerticalBlinker();
    assert !g.HasStableState();
  }

  method UndoScenario()
  {
    var g := new Grid(5, 10);
    FileTokensLoad(IsVertical);
    var _ := g.InitializeFromInput(FileTokens(IsVertical), false);
    VerticalBlinkerStep();
    g.Update();
    assert g.cells == HorizontalBlinker();
    g.Undo();
    assert g.cells == VerticalBlinker() && g.history == [];
    g.Undo();
    assert g.cells == VerticalBlinker() && g.history == [];
  }

  method BlockScenario()
  {
    var g := new Grid(5, 10);
    FileTokensLoad(IsBlock);
    var _ := g.InitializeFromInput(FileTokens(IsBlock), false);
    assert !g.HasStableState();
    BlockIsStillLife();
    g.Update();
    assert g.HasStableState();
  }

  method ToggleScenario()
  {
    var g := new Grid(5, 10);
    g.ToggleCell(2, 2, 1, Vivant);
    assert g.GetCellState(2, 2) == Vivant;
    g.ToggleCell(2, 2, 1, Vide);
    assert g.GetCellState(2, 2) == Vide;
    g.ToggleCell(1, 1, 1, Obstacle);
    assert g.GetCellState(1, 1) == Obstacle;
    g.ToggleCell(1, 1, 1, Vivant);
    assert g.GetCellState(1, 1) == Obstacle;
  }

  /** The grid of the printing test: live cells at (0, 0) and (2, 2), an
      obstacle at (1, 1). */
  function PrintTestGrid(): Matrix
  {
    [[Vivant, Vide, Vide, Vide, Vide, Vide, Vide, Vide, Vide, Vide],
     [Vide, Obstacle, Vide, Vide, Vide, Vide, Vide, Vide, Vide, Vide],
     [Vide, Vide, Vivant, Vide, Vide, Vide, Vide, Vide, Vide, Vide],
     [Vide, Vide, Vide, Vide, Vide, Vide, Vide, Vide, Vide, Vide],
     [Vide, Vide, Vide, Vide, Vide, Vide, Vide, Vide, Vide, Vide]]
  }

  /** A row text is determined by its layout. */
  lemma {:induction false} RowTextIs(row: seq<CellState>, t: string)
    requires |t| == 2 * |row| + 1 && t[2 * |row|] == '\n'
    requires forall j :: 0 <= j < |row| ==> t[2 * j] == CellToken(row[j])[0] && t[2 * j + 1] == ' '
    ensures RowText(row) == t
  {
    RowTextLength(row);
    forall k | 0 <= k < |t|
      ensures RowText(row)[k] == t[k]
    {
      if k == 2 * |row| {
      } else {
        var j := k / 2;
        assert t[2 * j] == CellToken(row[j])[0] && t[2 * j + 1] == ' ';
        RowTextCharAt(row, t, j, k);
      }
    }
  }

  /** Character k, in the cell pair starting at 2 * j, agrees with the layout. */
  lemma RowTextCharAt(row: seq<CellState>, t: string, j: nat, k: nat)
    requires j < |row| && (k == 2 * j || k == 2 * j + 1) && 2 * j + 1 < |t|
    requires t[2 * j] == CellToken(row[j])[0] && t[2 * j + 1] == ' '
    ensures k < |RowText(row)| && RowText(row)[k] == t[k]
  {
    RowTextAt(row, j);
  }

  lemma PrintTestRow0()
    ensures RowText(PrintTestGrid()[0]) == "1 0 0 0 0 0 0 0 0 0 \n"
  {
    var row, t := PrintTestGrid()[0], "1 0 0 0 0 0 0 0 0 0 \n";
    forall j | 0 <= j < 10
      ensures t[2 * j] == CellToken(row[j])[0] && t[2 * j + 1] == ' '
    {
    }
    RowTextIs(row, t);
  }

  lemma PrintTestRow1()
    ensures RowText(PrintTestGrid()[1]) == "0 X 0 0 0 0 0 0 0 0 \n"
  {
    var row, t := PrintTestGrid()[1], "0 X 0 0 0 0 0 0 0 0 \n";
    forall j | 0 <= j < 10
      ensures t[2 * j] == CellToken(row[j])[0] && t[2 * j + 1] == ' '
    {
    }
    RowTextIs(row, t);
  }

  lemma PrintTestRow2()
    ensures RowText(PrintTestGrid()[2]) == "0 0 1 0 0 0 0 0 0 0 \n"
  {
    var row, t := PrintTestGrid()[2], "0 0 1 0 0 0 0 0 0 0 \n";
    forall j | 0 <= j < 10
      ensures t[2 * j] == CellToken(row[j])[0] && t[2 * j + 1] == ' '
    {
    }
    RowTextIs(row, t);
  }

  lemma PrintTestRow3()
    ensures RowText(PrintTestGrid()[3]) == "0 0 0 0 0 0 0 0 0 0 \n"
  {
    var row, t := PrintTestGrid()[3], "0 0 0 0 0 0 0 0 0 0 \n";
    forall j | 0 <= j < 10
      ensures t[2 * j] == CellToken(row[j])[0] && t[2 * j + 1] == ' '
    {
    }
    RowTextIs(row, t);
  }

  /** A five-row grid renders as its five row texts and the separator. */
  lemma RenderFiveRows(g: Matrix, t0: string, t1: string, t2: string, t3: string, t4: string)
    requires |g| == 5
    requires RowText(g[0]) == t0 && RowText(g[1]) == t1 && RowText(g[2]) == t2
    requires RowText(g[3]) == t3 && RowText(g[4]) == t4
    ensures Render(g) == t0 + (t1 + (t2 + (t3 + (t4 + (Dashes + "\n")))))
  {
    var s4 := Render(g[4..]);
    assert s4 == t4 + (Dashes + "\n") by {
      var h := g[4..];
      assert h[0] == g[4] && h[1..] == [];
      assert Render(h) == RowText(h[0]) + Render(h[1..]);
    }
    var s3 := Render(g[3..]);
    assert s3 == t3 + s4 by {
      assert g[3..][0] == g[3] && g[3..][1..] == g[4..];
    }
    var s2 := Render(g[2..]);
    assert s2 == t2 + s3 by {
      assert g[2..][0] == g[2] && g[2..][1..] == g[3..];
    }
    var s1 := Render(g[1..]);
    assert s1 == t1 + s2 by {
      assert g[1..][0] == g[1] && g[1..][1..] == g[2..];
    }
    assert Render(g) == t0 + s1;
  }

  /** The printing test's expected output. */
  lemma PrintTestGridRendering()
    ensures Render(PrintTestGrid()) ==
      "1 0 0 0 0 0 0 0 0 0 \n" + (
      "0 X 0 0 0 0 0 0 0 0 \n" + (
      "0 0 1 0 0 0 0 0 0 0 \n" + (
      "0 0 0 0 0 0 0 0 0 0 \n" + (
      "0 0 0 0 0 0 0 0 0 0 \n" + (
      "-----------------------" + "\n")))))
  {
    var g := PrintTestGrid();
    PrintTestRow0();
    PrintTestRow1();
    PrintTestRow2();
    PrintTestRow3();
    assert g[4] == g[3];
    RenderFiveRows(g,
      "1 0 0 0 0 0 0 0 0 0 \n",
      "0 X 0 0 0 0 0 0 0 0 \n",
      "0 0 1 0 0 0 0 0 0 0 \n",
      "0 0 0 0 0 0 0 0 0 0 \n",
      "0 0 0 0 0 0 0 0 0 0 \n");
  }

  method PrintScenario()
  {
    var g := new Grid(5, 10);
    g.ToggleCell(0, 0, 1, Vivant);
    g.ToggleCell(1, 1, 1, Obstacle);
    g.ToggleCell(2, 2, 1, Vivant);
    SameCells(g.cells, PrintTestGrid(), 5, 10);
    PrintTestGridRendering();
    assert g.Print() ==
      "1 0 0 0 0 0 0 0 0 0 \n" + (
      "0 X 0 0 0 0 0 0 0 0 \n" + (
      "0 0 1 0 0 0 0 0 0 0 \n" + (
      "0 0 0 0 0 0 0 0 0 0 \n" + (
      "0 0 0 0 0 0 0 0 0 0 \n" + (
      "-----------------------" + "\n")))));
  }
}
