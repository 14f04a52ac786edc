/** The console game (2048_game.py): the row engine, the right, up and down moves reduced to
    the left move by reversing rows and transposing, the terminal test, tile spawning and the
    step of the main loop that accepts a move. */
module ConsoleGame {
  import opened Tiles
  import opened Boards

  /** NEW_TILE_VALUES: the values a spawned tile can take, 4 with one chance in four. */
  const NewTileValues: seq<nat> := [2, 2, 2, 4]

  /** reverse_grid_rows: every row read from right to left. */
  function ReverseGridRows(g: Grid): (r: Grid)
    requires IsGrid(g)
    ensures IsGrid(r)
  {
    seq(Size, i requires 0 <= i < Size => Reverse(g[i]))
  }

  /** transpose_grid: row i of the result is column i of g. */
  function TransposeGrid(g: Grid): (r: Grid)
    requires IsGrid(g)
    ensures IsGrid(r)
  {
    seq(Size, i requires 0 <= i < Size => Column(g, i))
  }

  /** move_right: reverse the rows, move left, reverse the rows back. */
  function RightOutcome(g: Grid): Outcome
    requires IsGrid(g)
  {
    var o := LeftOutcome(ReverseGridRows(g));
    Outcome(ReverseGridRows(o.grid), o.moved, o.gain)
  }

  /** move_up: transpose, move left, transpose back. */
  function UpOutcome(g: Grid): Outcome
    requires IsGrid(g)
  {
    var o := LeftOutcome(TransposeGrid(g));
    Outcome(TransposeGrid(o.grid), o.moved, o.gain)
  }

  /** move_down: transpose, move right, transpose back. */
  function DownOutcome(g: Grid): Outcome
    requires IsGrid(g)
  {
    var o := RightOutcome(TransposeGrid(g));
    Outcome(TransposeGrid(o.grid), o.moved, o.gain)
  }

  /** MOVE_MAP: the move each direction key selects. */
  function Apply(g: Grid, d: Direction): Outcome
    requires IsGrid(g)
  {
    match d
    case Left => LeftOutcome(g)
    case Right => RightOutcome(g)
    case Up => UpOutcome(g)
    case Down => DownOutcome(g)
  }

  // ---------------------------------------------------------------------------
  // The row engine

  /** merge_row_left: one left-to-right pass over the row that doubles each equal non-zero
      pair and empties its right cell, accumulating the doubled values. */
  method MergeRowLeft(row: seq<nat>) returns (merged: seq<nat>, scoreGain: nat)
    requires |row| == Size
    ensures merged == Merged(row) && scoreGain == MergeGain(row)
    ensures Sum(merged) == Sum(row)
    ensures scoreGain == DoubledSum(row, merged)
  {
    merged := row;
    scoreGain := 0;
    for idx := 0 to Size - 1
      invariant |merged| == Size
      invariant merged[..idx] + Merged(merged[idx..]) == Merged(row)
      invariant scoreGain + MergeGain(merged[idx..]) == MergeGain(row)
    {
      MergeStep(merged, idx);
      if merged[idx] != 0 && merged[idx] == merged[idx + 1] {
        var doubled := 2 * merged[idx];
        merged := merged[idx := doubled][idx + 1 := 0];
        scoreGain := scoreGain + doubled;
      }
    }
    MergeDone(merged);
    MergedSum(row);
    MergeGainIsDoubledSum(row);
  }

  /** move_left: slide every row, note whether some row changed, add up the row gains. The
      result has packed rows and the board's sum, and a move that changes nothing gains
      nothing. */
  method MoveLeft(grid: Grid) returns (newGrid: Grid, moved: bool, scoreGain: nat)
    requires IsGrid(grid)
    ensures Outcome(newGrid, moved, scoreGain) == LeftOutcome(grid)
    ensures IsGrid(newGrid) && forall i :: 0 <= i < Size ==> IsPacked(newGrid[i])
    ensures GridSum(newGrid) == GridSum(grid)
    ensures moved <==> newGrid != grid
    ensures !moved ==> newGrid == grid && scoreGain == 0
  {
    moved := false;
    scoreGain := 0;
    newGrid := [];
    for r := 0 to Size
      invariant newGrid == SlideRows(grid)[..r] && (moved <==> newGrid != grid[..r])
      invariant scoreGain == Sum(RowGains(grid)[..r])
    {
      var row := grid[r];
      var compressed := Compressed(row);
      var merged, gained := MergeRowLeft(compressed);
      var compressedAgain := Compressed(merged);
      LeftStep(grid, r, newGrid, moved, scoreGain, compressedAgain, gained);
      if compressedAgain != row {
        moved := true;
      }
      newGrid := newGrid + [compressedAgain];
      scoreGain := scoreGain + gained;
    }
    LeftDone(grid, newGrid, moved, scoreGain);
    LeftOutcomeFacts(grid);
  }

  /** move_right: the rows come back in their original orientation, packed toward the right. */
  method MoveRight(grid: Grid) returns (newGrid: Grid, moved: bool, scoreGain: nat)
    requires IsGrid(grid)
    ensures Outcome(newGrid, moved, scoreGain) == RightOutcome(grid)
    ensures IsGrid(newGrid) && forall i :: 0 <= i < Size ==> IsPacked(Reverse(newGrid[i]))
  {
    var reversedGrid := ReverseGridRows(grid);
    var leftGrid;
    leftGrid, moved, scoreGain := MoveLeft(reversedGrid);
    newGrid := ReverseGridRows(leftGrid);
    RightPacked(grid);
  }

  /** move_up: every column of the result is packed toward the top. */
  method MoveUp(grid: Grid) returns (newGrid: Grid, moved: bool, scoreGain: nat)
    requires IsGrid(grid)
    ensures Outcome(newGrid, moved, scoreGain) == UpOutcome(grid)
    ensures IsGrid(newGrid) && forall c :: 0 <= c < Size ==> IsPacked(Column(newGrid, c))
  {
    var transposed := TransposeGrid(grid);
    var leftGrid;
    leftGrid, moved, scoreGain := MoveLeft(transposed);
    newGrid := TransposeGrid(leftGrid);
    UpPacked(grid);
  }

  /** move_down: every column of the result is packed toward the bottom. */
  method MoveDown(grid: Grid) returns (newGrid: Grid, moved: bool, scoreGain: nat)
    requires IsGrid(grid)
    ensures Outcome(newGrid, moved, scoreGain) == DownOutcome(grid)
    ensures IsGrid(newGrid) && forall c :: 0 <= c < Size ==> IsPacked(Reverse(Column(newGrid, c)))
  {
    var transposed := TransposeGrid(grid);
    var rightGrid;
    rightGrid, moved, scoreGain := MoveRight(transposed);
    newGrid := TransposeGrid(rightGrid);
    DownPacked(grid);
  }

  // ---------------------------------------------------------------------------
  // Reversing and transposing

  lemma ReverseInvolution(s: seq<nat>)
    ensures Reverse(Reverse(s)) == s
  {
  }

  /** reverse_grid_rows undoes itself. */
  lemma ReverseGridRowsInvolution(g: Grid)
    requires IsGrid(g)
    ensures ReverseGridRows(ReverseGridRows(g)) == g
  {
    forall i | 0 <= i < Size
      ensures ReverseGridRows(ReverseGridRows(g))[i] == g[i]
    {
      ReverseInvolution(g[i]);
    }
  }

  /** transpose_grid undoes itself. */
  lemma TransposeInvolution(g: Grid)
    requires IsGrid(g)
    ensures TransposeGrid(TransposeGrid(g)) == g
  {
    GridExt(TransposeGrid(TransposeGrid(g)), g);
  }

  /** Reversing rows keeps the board's sum. */
  lemma ReverseGridRowsSum(g: Grid)
    requires IsGrid(g)
    ensures GridSum(ReverseGridRows(g)) == GridSum(g)
  {
    forall i | 0 <= i < Size
      ensures Sum(ReverseGridRows(g)[i]) == Sum(g[i])
    {
      SumReverse(g[i]);
    }
    GridSumByRows(ReverseGridRows(g), g);
  }

  /** Transposing keeps the board's sum. */
  lemma TransposeSum(g: Grid)
    requires IsGrid(g)
    ensures GridSum(TransposeGrid(g)) == GridSum(g)
  {
    GridSumOfCells(g);
    GridSumOfCells(TransposeGrid(g));
  }

  // ---------------------------------------------------------------------------
  // Properties of the four moves: 2048_game.py:118-156

  /** Every move keeps the board well formed and its sum, reports a move exactly when the
      board changed, and a move that changes nothing returns the board unchanged with no
      score. */
  lemma ApplyFacts(g: Grid, d: Direction)
    requires IsGrid(g)
    ensures IsGrid(Apply(g, d).grid)
    ensures GridSum(Apply(g, d).grid) == GridSum(g)
    ensures Apply(g, d).moved <==> Apply(g, d).grid != g
    ensures !Apply(g, d).moved ==> Apply(g, d).grid == g && Apply(g, d).gain == 0
  {
    match d
    case Left => LeftOutcomeFacts(g);
    case Right => RightFacts(g);
    case Up => UpFacts(g);
    case Down =>
      var t := TransposeGrid(g);
      RightFacts(t);
      TransposeSum(g);
      TransposeSum(RightOutcome(t).grid);
      TransposeInvolution(g);
      TransposeInvolution(RightOutcome(t).grid);
  }

  lemma RightFacts(g: Grid)
    requires IsGrid(g)
    ensures IsGrid(RightOutcome(g).grid)
    ensures GridSum(RightOutcome(g).grid) == GridSum(g)
    ensures RightOutcome(g).moved <==> RightOutcome(g).grid != g
    ensures !RightOutcome(g).moved ==> RightOutcome(g).grid == g && RightOutcome(g).gain == 0
  {
    var h := ReverseGridRows(g);
    var o := LeftOutcome(h);
    LeftOutcomeFacts(h);
    ReverseGridRowsSum(g);
    ReverseGridRowsSum(o.grid);
    ReverseGridRowsInvolution(g);
    ReverseGridRowsInvolution(o.grid);
  }

  lemma UpFacts(g: Grid)
    requires IsGrid(g)
    ensures IsGrid(UpOutcome(g).grid)
    ensures GridSum(UpOutcome(g).grid) == GridSum(g)
    ensures UpOutcome(g).moved <==> UpOutcome(g).grid != g
    ensures !UpOutcome(g).moved ==> UpOutcome(g).grid == g && UpOutcome(g).gain == 0
  {
    var h := TransposeGrid(g);
    var o := LeftOutcome(h);
    LeftOutcomeFacts(h);
    TransposeSum(g);
    TransposeSum(o.grid);
    TransposeInvolution(g);
    TransposeInvolution(o.grid);
  }

  /** move_right returns rows packed toward the right. */
  lemma RightPacked(g: Grid)
    requires IsGrid(g)
    ensures IsGrid(RightOutcome(g).grid)
    ensures forall i :: 0 <= i < Size ==> IsPacked(Reverse(RightOutcome(g).grid[i]))
  {
    var o := LeftOutcome(ReverseGridRows(g));
    LeftOutcomeFacts(ReverseGridRows(g));
    forall i | 0 <= i < Size
      ensures IsPacked(Reverse(RightOutcome(g).grid[i]))
    {
      ReverseInvolution(o.grid[i]);
    }
  }

  /** move_up returns columns packed toward the top. */
  lemma UpPacked(g: Grid)
    requires IsGrid(g)
    ensures IsGrid(UpOutcome(g).grid)
    ensures forall c :: 0 <= c < Size ==> IsPacked(Column(UpOutcome(g).grid, c))
  {
    var o := LeftOutcome(TransposeGrid(g));
    LeftOutcomeFacts(TransposeGrid(g));
    forall c | 0 <= c < Size
      ensures IsPacked(Column(UpOutcome(g).grid, c))
    {
      assert Column(UpOutcome(g).grid, c) == o.grid[c];
    }
  }

  /** move_down returns columns packed toward the bottom. */
  lemma DownPacked(g: Grid)
    requires IsGrid(g)
    ensures IsGrid(DownOutcome(g).grid)
    ensures forall c :: 0 <= c < Size ==> IsPacked(Reverse(Column(DownOutcome(g).grid, c)))
  {
    var o := RightOutcome(TransposeGrid(g));
    RightPacked(TransposeGrid(g));
    forall c | 0 <= c < Size
      ensures IsPacked(Reverse(Column(DownOutcome(g).grid, c)))
    {
      assert Column(DownOutcome(g).grid, c) == o.grid[c];
    }
  }

  // ---------------------------------------------------------------------------
  // can_move: 2048_game.py:159-171

  /** No move changes the board exactly when the terminal test fails or the board is empty:
      the test is exact except on the empty board, where it reports a move although none of
      the four changes anything. */
  lemma TerminalExact(g: Grid)
    requires IsGrid(g)
    ensures (!Apply(g, Left).moved && !Apply(g, Right).moved && !Apply(g, Up).moved && !Apply(g, Down).moved)
            <==> !Movable(g) || AllEmpty(g)
  {
    LeftFixedIff(g);
    RightStillIff(g);
    UpStillIff(g);
    DownStillIff(g);
    StillIff(g);
  }

  lemma RightStillIff(g: Grid)
    requires IsGrid(g)
    ensures !Apply(g, Right).moved <==> forall i :: 0 <= i < Size ==> Still(Reverse(g[i]))
  {
    LeftFixedIff(ReverseGridRows(g));
    assert forall i :: 0 <= i < Size ==> ReverseGridRows(g)[i] == Reverse(g[i]);
  }

  lemma UpStillIff(g: Grid)
    requires IsGrid(g)
    ensures !Apply(g, Up).moved <==> forall i :: 0 <= i < Size ==> Still(Column(g, i))
  {
    LeftFixedIff(TransposeGrid(g));
    assert forall i :: 0 <= i < Size ==> TransposeGrid(g)[i] == Column(g, i);
  }

  lemma DownStillIff(g: Grid)
    requires IsGrid(g)
    ensures !Apply(g, Down).moved <==> forall i :: 0 <= i < Size ==> Still(Reverse(Column(g, i)))
  {
    var t := TransposeGrid(g);
    LeftFixedIff(ReverseGridRows(t));
    assert forall i :: 0 <= i < Size ==> ReverseGridRows(t)[i] == Reverse(Column(g, i));
  }

  /** On a board the terminal test rejects, none of the four moves changes anything. */
  lemma NoMoveWhenStuck(g: Grid, d: Direction)
    requires IsGrid(g) && !Movable(g)
    ensures !Apply(g, d).moved && Apply(g, d).grid == g && Apply(g, d).gain == 0
  {
    TerminalExact(g);
    ApplyFacts(g, d);
  }

  /** can_move: an empty cell, then equal horizontal neighbours, then equal vertical
      neighbours, returning as soon as one is found. */
  method CanMove(grid: Grid) returns (b: bool)
    requires IsGrid(grid)
    ensures b == Movable(grid)
  {
    for r := 0 to Size
      invariant forall i :: 0 <= i < r ==> 0 !in grid[i]
    {
      if 0 in grid[r] {
        ghost var c :| 0 <= c < Size && grid[r][c] == 0;
        return true;
      }
    }
    for r := 0 to Size
      invariant forall i: nat, j: nat :: i < r && j < Size - 1 ==> !EqualRight(grid, i, j)
    {
      for c := 0 to Size - 1
        invariant forall i: nat, j: nat :: (i < r || (i == r && j < c)) && j < Size - 1 ==> !EqualRight(grid, i, j)
      {
        if grid[r][c] == grid[r][c + 1] {
          assert EqualRight(grid, r, c);
          return true;
        }
      }
    }
    for c := 0 to Size
      invariant forall i: nat, j: nat :: i < Size - 1 && j < c ==> !EqualBelow(grid, i, j)
    {
      for r := 0 to Size - 1
        invariant forall i: nat, j: nat :: i < Size - 1 && (j < c || (j == c && i < r)) ==> !EqualBelow(grid, i, j)
      {
        if grid[r][c] == grid[r + 1][c] {
          assert EqualBelow(grid, r, c);
          return true;
        }
      }
    }
    return false;
  }

  // ---------------------------------------------------------------------------
  // add_new_tile: 2048_game.py:62-68

  /** add_new_tile with the two random choices passed in: returns false and leaves the board
      as it is when no cell is empty; otherwise turns exactly the chosen empty cell into the
      chosen value of NEW_TILE_VALUES and changes nothing else. */
  method AddNewTile(grid: Grid, cellPick: nat, valuePick: nat) returns (placed: bool, newGrid: Grid)
    requires IsGrid(grid)
    ensures newGrid == Spawned(grid, NewTileValues, cellPick, valuePick)
    ensures IsGrid(newGrid)
    ensures placed <==> HasEmptyCell(grid)
    ensures !placed ==> newGrid == grid
    ensures placed ==>
      var empty := EmptyCells(grid);
      && |empty| > 0
      && var cell := empty[cellPick % |empty|];
      && grid[cell.0][cell.1] == 0
      && newGrid[cell.0][cell.1] in NewTileValues
      && forall i, j :: 0 <= i < Size && 0 <= j < Size && (i, j) != cell ==> newGrid[i][j] == grid[i][j]
  {
    EmptyCellsIff(grid);
    SpawnedFacts(grid, NewTileValues, cellPick, valuePick);
    var emptyCells := EmptyCells(grid);
    if |emptyCells| == 0 {
      return false, grid;
    }
    var cell := emptyCells[cellPick % |emptyCells|];
    var r, c := cell.0, cell.1;
    newGrid := grid[r := grid[r][c := NewTileValues[valuePick % |NewTileValues|]]];
    placed := true;
  }

  /** init_grid with the random choices passed in: an empty board with two tiles spawned
      (StartCount shows that exactly two cells are then taken). */
  method InitGrid(cellPick1: nat, valuePick1: nat, cellPick2: nat, valuePick2: nat) returns (grid: Grid)
    ensures IsGrid(grid)
    ensures grid == Spawned(Spawned(EmptyGrid(), NewTileValues, cellPick1, valuePick1),
                            NewTileValues, cellPick2, valuePick2)
  {
    var placed;
    grid := EmptyGrid();
    placed, grid := AddNewTile(grid, cellPick1, valuePick1);
    placed, grid := AddNewTile(grid, cellPick2, valuePick2);
  }

  /** Two spawns on an empty board, as init_grid makes them on EmptyGrid(), give a board
      with exactly two tiles, each a value of NEW_TILE_VALUES. */
  lemma StartCount(start: Grid, cellPick1: nat, valuePick1: nat, cellPick2: nat, valuePick2: nat)
    requires IsGrid(start) && AllEmpty(start)
    ensures var second := Spawned(Spawned(start, NewTileValues, cellPick1, valuePick1),
                                  NewTileValues, cellPick2, valuePick2);
      |EmptyCells(second)| == Size * Size - 2 && TilesFrom(second, NewTileValues)
  {
    var first := Spawned(start, NewTileValues, cellPick1, valuePick1);
    assert 0 !in NewTileValues;
    EmptyBoardCells(start, Size);
    EmptyBoard(start, NewTileValues);
    SpawnOnCount(start, NewTileValues, cellPick1, valuePick1, Size * Size);
    SpawnedTilesFrom(start, NewTileValues, cellPick1, valuePick1);
    SpawnOnCount(first, NewTileValues, cellPick2, valuePick2, Size * Size - 1);
    SpawnedTilesFrom(first, NewTileValues, cellPick2, valuePick2);
  }

  // ---------------------------------------------------------------------------
  // The move step of main: 2048_game.py:279-283

  /** Apply the move the key selects; only a move that changed the board is kept, adds its
      gain to the score and spawns a tile. A move that changes nothing leaves board and score
      exactly as they were, and the score never decreases. */
  method AcceptMove(grid: Grid, score: nat, d: Direction, cellPick: nat, valuePick: nat)
    returns (grid': Grid, score': nat)
    requires IsGrid(grid)
    ensures IsGrid(grid')
    ensures !Apply(grid, d).moved ==> grid' == grid && score' == score
    ensures Apply(grid, d).moved ==>
      score' == score + Apply(grid, d).gain
      && grid' == Spawned(Apply(grid, d).grid, NewTileValues, cellPick, valuePick)
    ensures score' >= score
    ensures grid' != grid ==> Apply(grid, d).moved
  {
    var newGrid, moved, scoreGain;
    match d {
      case Left => newGrid, moved, scoreGain := MoveLeft(grid);
      case Right => newGrid, moved, scoreGain := MoveRight(grid);
      case Up => newGrid, moved, scoreGain := MoveUp(grid);
      case Down => newGrid, moved, scoreGain := MoveDown(grid);
    }
    ApplyFacts(grid, d);
    grid', score' := grid, score;
    if moved {
      grid' := newGrid;
      score' := score + scoreGain;
      var placed;
      placed, grid' := AddNewTile(grid', cellPick, valuePick);
    }
  }
}
