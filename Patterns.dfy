/** The 5 x 10 configurations the unit tests exercise: the 2 x 2 block, a
    still life, and the blinker, a period-2 oscillator. */
module Patterns {
  import opened Cellule
  import opened Life

  /** The grid of the given shape whose live cells are exactly `alive`;
      every other cell is Vide. */
  function Pattern(rows: nat, cols: nat, alive: (int, int) -> bool): (g: Matrix)
    ensures Shaped(g, rows, cols)
    ensures forall i, j :: 0 <= i < rows && 0 <= j < cols ==>
              (g[i][j] == Vivant <==> alive(i, j)) && g[i][j] != Obstacle
  {
    seq(rows, i => seq(cols, j => if alive(i, j) then Vivant else Vide))
  }

  predicate IsBlock(r: int, c: int) { 1 <= r <= 2 && 1 <= c <= 2 }
  predicate IsVertical(r: int, c: int) { 0 <= r <= 2 && c == 2 }
  predicate IsHorizontal(r: int, c: int) { r == 1 && 1 <= c <= 3 }

  /** A 2 x 2 block of live cells at rows 1-2, columns 1-2. */
  function Block(): (g: Matrix)
    ensures Shaped(g, 5, 10)
  {
    Pattern(5, 10, IsBlock)
  }

  /** Three live cells in column 2, rows 0-2 (touching the top edge). */
  function VerticalBlinker(): (g: Matrix)
    ensures Shaped(g, 5, 10)
  {
    Pattern(5, 10, IsVertical)
  }

  /** Three live cells in row 1, columns 1-3. */
  function HorizontalBlinker(): (g: Matrix)
    ensures Shaped(g, 5, 10)
  {
    Pattern(5, 10, IsHorizontal)
  }

  /** Membership of (r, c) among the live cells of a pattern, as a count. */
  function In(alive: (int, int) -> bool, r: int, c: int): nat
  {
    if alive(r, c) then 1 else 0
  }

  /** The live cells among the eight positions around (x, y), counted on
      the predicate that describes a pattern. */
  function Around(alive: (int, int) -> bool, x: int, y: int): nat
  {
    In(alive, x - 1, y - 1) + In(alive, x - 1, y) + In(alive, x - 1, y + 1) +
    In(alive, x, y - 1) + In(alive, x, y + 1) +
    In(alive, x + 1, y - 1) + In(alive, x + 1, y) + In(alive, x + 1, y + 1)
  }

  /** In a pattern whose live cells all lie on the grid, the neighbour count
      is read off the predicate. */
  lemma PatternNeighbors(rows: nat, cols: nat, alive: (int, int) -> bool, x: int, y: int)
    requires forall r, c :: alive(r, c) ==> 0 <= r < rows && 0 <= c < cols
    ensures LivingNeighbors(Pattern(rows, cols, alive), x, y) == Around(alive, x, y)
  {
    var g := Pattern(rows, cols, alive);
    forall r, c ensures AliveAt(g, r, c) == In(alive, r, c) {
      if alive(r, c) {
        assert 0 <= r < rows && 0 <= c < cols;
      }
    }
  }

  /** The block: each of its cells has three live neighbours, and no cell
      outside it has exactly three. */
  lemma BlockAround(i: int, j: int)
    ensures IsBlock(i, j) ==> Around(IsBlock, i, j) == 3
    ensures !IsBlock(i, j) ==> Around(IsBlock, i, j) != 3
  {
    if i < 0 || i > 3 || j < 0 || j > 3 {
      assert Around(IsBlock, i, j) <= 2;
    }
  }

  /** The block is a still life: a step leaves it unchanged. */
  lemma BlockIsStillLife()
    ensures StillLife(Block())
  {
    var g := Block();
    forall i, j | 0 <= i < 5 && 0 <= j < 10
      ensures Step(g)[i][j] == g[i][j]
    {
      PatternNeighbors(5, 10, IsBlock, i, j);
      BlockAround(i, j);
      StepAt(g, i, j);
    }
    StepShaped(g, 5, 10);
    SameCells(Step(g), g, 5, 10);
  }

  /** The vertical blinker: exactly the two cells beside its centre have
      three live neighbours, and of its own cells only the centre has two or
      three. */
  lemma VerticalAround(i: int, j: int)
    ensures Around(IsVertical, i, j) == 3 <==> i == 1 && (j == 1 || j == 3)
    ensures IsVertical(i, j) ==> (Around(IsVertical, i, j) == 2 <==> i == 1)
    ensures IsVertical(i, j) ==> Around(IsVertical, i, j) != 3
  {
    if j < 1 || j > 3 {
      assert Around(IsVertical, i, j) == 0;
    } else if j == 2 {
      assert Around(IsVertical, i, j) == In(IsVertical, i - 1, 2) + In(IsVertical, i + 1, 2);
    } else {
      assert Around(IsVertical, i, j) == In(IsVertical, i - 1, 2) + In(IsVertical, i, 2) + In(IsVertical, i + 1, 2);
    }
  }

  /** The horizontal blinker: exactly the cells above and below its centre
      have three live neighbours, and of its own cells only the centre has
      two or three. */
  lemma HorizontalAround(i: int, j: int)
    ensures Around(IsHorizontal, i, j) == 3 <==> j == 2 && (i == 0 || i == 2)
    ensures IsHorizontal(i, j) ==> (Around(IsHorizontal, i, j) == 2 <==> j == 2)
    ensures IsHorizontal(i, j) ==> Around(IsHorizontal, i, j) != 3
  {
    if i < 0 || i > 2 {
      assert Around(IsHorizontal, i, j) == 0;
    } else if i == 1 {
      assert Around(IsHorizontal, i, j) == In(IsHorizontal, 1, j - 1) + In(IsHorizontal, 1, j + 1);
    } else {
      assert Around(IsHorizontal, i, j) == In(IsHorizontal, 1, j - 1) + In(IsHorizontal, 1, j) + In(IsHorizontal, 1, j + 1);
    }
  }

  /** One step turns the vertical blinker into the horizontal one. */
  lemma VerticalBlinkerStep()
    ensures Step(VerticalBlinker()) == HorizontalBlinker()
  {
    var v, h := VerticalBlinker(), HorizontalBlinker();
    forall i, j | 0 <= i < 5 && 0 <= j < 10
      ensures Step(v)[i][j] == h[i][j]
    {
      PatternNeighbors(5, 10, IsVertical, i, j);
      VerticalAround(i, j);
      StepAt(v, i, j);
    }
    StepShaped(v, 5, 10);
    SameCells(Step(v), h, 5, 10);
  }

  /** One step turns the horizontal blinker back into the vertical one. */
  lemma HorizontalBlinkerStep()
    ensures Step(HorizontalBlinker()) == VerticalBlinker()
  {
    var v, h := VerticalBlinker(), HorizontalBlinker();
    forall i, j | 0 <= i < 5 && 0 <= j < 10
      ensures Step(h)[i][j] == v[i][j]
    {
      PatternNeighbors(5, 10, IsHorizontal, i, j);
      HorizontalAround(i, j);
      StepAt(h, i, j);
    }
    StepShaped(h, 5, 10);
    SameCells(Step(h), v, 5, 10);
  }

  /** The two phases of the blinker differ (at the top end of the line). */
  lemma BlinkerPhasesDiffer()
    ensures VerticalBlinker() != HorizontalBlinker()
  {
    assert VerticalBlinker()[0][2] == Vivant;
    assert HorizontalBlinker()[0][2] == Vide;
  }

  /** The blinker has period 2: it returns after two steps and is not a
      still life in either phase. */
  lemma BlinkerOscillates()
    ensures Step(Step(VerticalBlinker())) == VerticalBlinker()
    ensures !StillLife(VerticalBlinker()) && !StillLife(HorizontalBlinker())
  {
    VerticalBlinkerStep();
    HorizontalBlinkerStep();
    BlinkerPhasesDiffer();
  }
}
