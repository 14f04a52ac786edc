/** The browser game of app.js. Its moves are built from one left move: the board is turned
    clockwise a number of quarter turns that depends on the direction, moved left, and turned
    back. The module-level grid, score and best score and the game-over overlay are the fields
    of a Game object whose methods are the functions of the script. */
module WebGame {
  import opened Tiles
  import opened Boards

  /** startTiles: the number of tiles a new game starts with. */
  const StartTiles: nat := 2
  /** spawnValues: the values a new tile is drawn from, each equally likely. */
  const SpawnValues: seq<nat> := [2, 4, 8, 16, 32]

  // ---------------------------------------------------------------------------
  // The row helpers: app.js:80-98, 144-146

  /** compress: a new array holding the row's non-zero values in order, padded with zeros to
      gridSize cells; the row passed in is only read. */
  method Compress(row: seq<nat>) returns (filtered: array<nat>)
    requires |row| <= Size
    ensures fresh(filtered)
    ensures filtered[..] == Compressed(row)
    ensures IsPacked(filtered[..]) && NonZeros(filtered[..]) == NonZeros(row) && Sum(filtered[..]) == Sum(row)
  {
    var kept := NonZeros(row);
    var s := kept;
    while |s| < Size
      invariant |kept| <= |s| <= Size
      invariant s == kept + Zeros(|s| - |kept|)
      decreases Size - |s|
    {
      assert Zeros(|s| - |kept|) + [0] == Zeros(|s| + 1 - |kept|);
      s := s + [0];
    }
    filtered := new nat[|s|](k requires 0 <= k < |s| => s[k]);
    CompressFacts(row);
  }

  /** merge: one pass over the array from its first cell; a non-empty cell equal to its right
      neighbour is doubled in place and the neighbour emptied. Returns the sum of the doubled
      values. */
  method Merge(row: array<nat>) returns (gained: nat)
    requires row.Length == Size
    modifies row
    ensures row[..] == Merged(old(row[..]))
    ensures gained == MergeGain(old(row[..]))
    ensures Sum(row[..]) == Sum(old(row[..])) && gained == DoubledSum(old(row[..]), row[..])
  {
    ghost var start := row[..];
    ghost var cells := start;
    gained := 0;
    for i := 0 to Size - 1
      invariant cells == row[..]
      invariant cells[..i] + Merged(cells[i..]) == Merged(start)
      invariant gained + MergeGain(cells[i..]) == MergeGain(start)
    {
      MergeStep(cells, i);
      if row[i] != 0 && row[i] == row[i + 1] {
        row[i] := row[i] * 2;
        row[i + 1] := 0;
        gained := gained + row[i];
        cells := cells[i := 2 * cells[i]][i + 1 := 0];
      }
    }
    MergeDone(cells);
    MergedSum(start);
    MergeGainIsDoubledSum(start);
  }

  /** arraysEqual: every cell of a equals the cell of b at the same index (an index past the
      end of b compares unequal). For rows of the same length it is equality. */
  function ArraysEqual(a: seq<nat>, b: seq<nat>): (eq: bool)
    ensures |a| == |b| ==> (eq <==> a == b)
  {
    forall idx :: 0 <= idx < |a| ==> idx < |b| && a[idx] == b[idx]
  }

  /** The row callback of moveLeft: compress, merge, compress again, and compare with the
      row it started from. The result is the row slid to the left with the score it gains,
      and changed tells whether that differs from the row. */
  method RowLeft(row: seq<nat>) returns (mergedRow: seq<nat>, rowGain: nat, changed: bool)
    requires |row| == Size
    ensures mergedRow == Slide(row) && rowGain == RowGain(row)
    ensures changed <==> mergedRow != row
    ensures IsPacked(mergedRow) && Sum(mergedRow) == Sum(row)
  {
    var compressed := Compress(row);
    rowGain := Merge(compressed);
    var merged := Compress(compressed[..]);
    mergedRow := merged[..];
    changed := !ArraysEqual(row, mergedRow);
    SlideFacts(row);
  }

  // ---------------------------------------------------------------------------
  // Quarter turns of the board: app.js:116-142

  /** One clockwise quarter turn, as the loop body of rotateGrid writes it: row i of the
      result is column i of the board read from the bottom. */
  function TurnOnce(g: Grid): (r: Grid)
    requires IsGrid(g)
    ensures IsGrid(r)
  {
    seq(Size, i requires 0 <= i < Size => Reverse(Column(g, i)))
  }

  /** The board after k clockwise quarter turns. */
  function Rotate(g: Grid, k: nat): (r: Grid)
    requires IsGrid(g)
    ensures IsGrid(r)
  {
    if k == 0 then g else TurnOnce(Rotate(g, k - 1))
  }

  /** The quarter turns rotateGrid applies before the left move; a direction missing from
      its table is turned 0 times. */
  function ForwardTurns(d: Direction): nat
  {
    match d
    case Right => 2
    case Up => 1
    case Down => 3
    case Left => 0
  }

  /** The quarter turns setGrid applies after the left move. */
  function InverseTurns(d: Direction): nat
  {
    match d
    case Right => 2
    case Up => 3
    case Down => 1
    case Left => 0
  }

  /** The move handleMove makes in direction d: turn, move left, turn back. Whether it moved
      and what it gained are those of the left move on the turned board. */
  function Apply(g: Grid, d: Direction): Outcome
    requires IsGrid(g)
  {
    var turned := Rotate(g, ForwardTurns(d));
    var o := LeftOutcome(turned);
    Outcome(Rotate(o.grid, InverseTurns(d)), o.moved, o.gain)
  }

  /** The greater of two scores, as Math.max. */
  function Max(a: nat, b: nat): (m: nat)
    ensures m >= a && m >= b && (m == a || m == b)
  {
    if a >= b then a else b
  }

  /** A quarter turn puts the cell of row Size - 1 - j, column i at row i, column j. */
  lemma TurnOnceCells(g: Grid)
    requires IsGrid(g)
    ensures forall i, j :: 0 <= i < Size && 0 <= j < Size ==> TurnOnce(g)[i][j] == g[Size - 1 - j][i]
  {
  }

  /** Turning a + b times is turning a times and then b times. */
  lemma {:induction false} RotateAdd(g: Grid, a: nat, b: nat)
    requires IsGrid(g)
    ensures Rotate(g, a + b) == Rotate(Rotate(g, a), b)
  {
    if b > 0 {
      RotateAdd(g, a, b - 1);
    }
  }

  /** Two quarter turns send row i, column j to row Size - 1 - i, column Size - 1 - j. */
  lemma TwoTurnsCells(g: Grid)
    requires IsGrid(g)
    ensures forall i, j :: 0 <= i < Size && 0 <= j < Size ==> Rotate(g, 2)[i][j] == g[Size - 1 - i][Size - 1 - j]
  {
    TurnOnceCells(g);
    TurnOnceCells(TurnOnce(g));
    assert Rotate(g, 1) == TurnOnce(g);
    assert Rotate(g, 2) == TurnOnce(TurnOnce(g));
  }

  /** Four quarter turns give the board back. */
  lemma FourTurns(g: Grid)
    requires IsGrid(g)
    ensures Rotate(g, 4) == g
  {
    RotateAdd(g, 2, 2);
    TwoTurnsCells(g);
    TwoTurnsCells(Rotate(g, 2));
    GridExt(Rotate(g, 4), g);
  }

  /** For every direction the turns of rotateGrid and of setGrid add up to none or to four, so
      each undoes the other, in both orders. */
  lemma RoundTrip(g: Grid, d: Direction)
    requires IsGrid(g)
    ensures Rotate(Rotate(g, ForwardTurns(d)), InverseTurns(d)) == g
    ensures Rotate(Rotate(g, InverseTurns(d)), ForwardTurns(d)) == g
  {
    RotateAdd(g, ForwardTurns(d), InverseTurns(d));
    RotateAdd(g, InverseTurns(d), ForwardTurns(d));
    if d != Left {
      FourTurns(g);
    }
  }

  /** A move reports moved exactly when it changes the board; a move that changes nothing
      gains nothing. */
  lemma ApplyFacts(g: Grid, d: Direction)
    requires IsGrid(g)
    ensures IsGrid(Apply(g, d).grid)
    ensures Apply(g, d).moved <==> Apply(g, d).grid != g
    ensures !Apply(g, d).moved ==> Apply(g, d).grid == g && Apply(g, d).gain == 0
  {
    var turned := Rotate(g, ForwardTurns(d));
    LeftOutcomeFacts(turned);
    var o := LeftOutcome(turned);
    RoundTrip(g, d);
    if Rotate(o.grid, InverseTurns(d)) == g {
      RoundTrip(o.grid, d);
    }
  }

  // ---------------------------------------------------------------------------
  // The game state: app.js:12-14 and the functions that read and update it

  /** The board after one tile has been spawned per pair of choices, in order. */
  function SpawnedMany(g: Grid, cellPicks: seq<nat>, valuePicks: seq<nat>): (r: Grid)
    requires IsGrid(g) && |cellPicks| == |valuePicks|
    ensures IsGrid(r)
    decreases |cellPicks|
  {
    if |cellPicks| == 0 then g
    else
      var prev := SpawnedMany(g, cellPicks[..|cellPicks| - 1], valuePicks[..|valuePicks| - 1]);
      SpawnedFacts(prev, SpawnValues, cellPicks[|cellPicks| - 1], valuePicks[|valuePicks| - 1]);
      Spawned(prev, SpawnValues, cellPicks[|cellPicks| - 1], valuePicks[|valuePicks| - 1])
  }

  /** Spawning one pair of choices more extends the run by one spawn. */
  lemma SpawnedManyStep(g: Grid, cellPicks: seq<nat>, valuePicks: seq<nat>, i: nat)
    requires IsGrid(g) && |cellPicks| == |valuePicks| && i < |cellPicks|
    ensures SpawnedMany(g, cellPicks[..i + 1], valuePicks[..i + 1])
         == Spawned(SpawnedMany(g, cellPicks[..i], valuePicks[..i]), SpawnValues, cellPicks[i], valuePicks[i])
  {
    assert cellPicks[..i + 1][..i] == cellPicks[..i] && valuePicks[..i + 1][..i] == valuePicks[..i];
  }

  /** n spawns on an empty board, as initGame makes them on EmptyGrid(), give a board with
      exactly n tiles, each drawn from spawnValues. */
  lemma {:induction false} SpawnedManyCount(start: Grid, cellPicks: seq<nat>, valuePicks: seq<nat>)
    requires IsGrid(start) && AllEmpty(start)
    requires |cellPicks| == |valuePicks| <= Size * Size
    ensures |EmptyCells(SpawnedMany(start, cellPicks, valuePicks))| == Size * Size - |cellPicks|
    ensures TilesFrom(SpawnedMany(start, cellPicks, valuePicks), SpawnValues)
  {
    var n := |cellPicks|;
    assert 0 !in SpawnValues;
    if n == 0 {
      EmptyBoardCells(start, Size);
      EmptyBoard(start, SpawnValues);
    } else {
      var cs, vs := cellPicks[..n - 1], valuePicks[..n - 1];
      SpawnedManyCount(start, cs, vs);
      var prev := SpawnedMany(start, cs, vs);
      SpawnOnCount(prev, SpawnValues, cellPicks[n - 1], valuePicks[n - 1], Size * Size - (n - 1));
      SpawnedTilesFrom(prev, SpawnValues, cellPicks[n - 1], valuePicks[n - 1]);
    }
  }

  /** The state the script keeps: the board, the score, the best score and whether the
      game-over overlay is hidden. */
  datatype State = State(grid: Grid, score: nat, best: nat, overlayHidden: bool)

  /** The state after handleMove(d), with the random choices of the spawned tile passed in.
      While the overlay is shown, and for a move that changes nothing, the state is kept.
      Otherwise the moved board gets a tile, the score its gain, the best score is lifted to
      the score and the overlay is shown when no move is left. */
  function Handled(st: State, d: Direction, cellPick: nat, valuePick: nat): State
    requires IsGrid(st.grid)
  {
    if !st.overlayHidden then st
    else
      var o := Apply(st.grid, d);
      if !o.moved then st
      else
        var g := Spawned(o.grid, SpawnValues, cellPick, valuePick);
        var score := st.score + o.gain;
        State(g, score, Max(st.best, score), Movable(g))
  }

  /** Handling a key keeps a 4x4 board and the best score at least the score; score and best
      score never decrease; nothing changes while the overlay is shown or when the move
      changes nothing; and a real move with the overlay hidden spawns a tile on the moved
      board, gains exactly the move's gain, lifts the best score to the larger of the old
      best and the new score, and shows the overlay exactly when no move is left. */
  lemma HandledFacts(st: State, d: Direction, cellPick: nat, valuePick: nat)
    requires IsGrid(st.grid) && st.score <= st.best
    ensures var r := Handled(st, d, cellPick, valuePick);
      && IsGrid(r.grid) && r.score <= r.best
      && r.score >= st.score && r.best >= st.best
      && (!st.overlayHidden || !Apply(st.grid, d).moved ==> r == st)
      && (st.overlayHidden && Apply(st.grid, d).moved ==>
            && r.grid == Spawned(Apply(st.grid, d).grid, SpawnValues, cellPick, valuePick)
            && r.score == st.score + Apply(st.grid, d).gain
            && r.best == Max(st.best, r.score)
            && r.overlayHidden == Movable(r.grid))
  {
    ApplyFacts(st.grid, d);
  }

  class Game {
    /** The board, the score of the current game and the best score of the session. */
    var grid: Grid
    var score: nat
    var best: nat
    /** Whether the game-over overlay is hidden; moves are taken only while it is. */
    var overlayHidden: bool

    /** The board is 4x4 and the best score is never below the current one. */
    ghost predicate Valid()
      reads this
    {
      IsGrid(grid) && score <= best
    }

    /** Loading the script: the globals start empty and at zero, then initGame starts the
        first game with one pair of random choices per starting tile. */
    constructor (cellPicks: seq<nat>, valuePicks: seq<nat>)
      requires |cellPicks| == |valuePicks| == StartTiles
      ensures Valid()
      ensures grid == SpawnedMany(EmptyGrid(), cellPicks, valuePicks)
      ensures score == 0 && best == 0 && overlayHidden
    {
      grid := [];
      score := 0;
      best := 0;
      overlayHidden := true;
      new;
      InitGame(cellPicks, valuePicks);
    }

    /** initGame: an empty board, score 0, the overlay hidden, startTiles tiles spawned, then
        render. The best score carries over. */
    method InitGame(cellPicks: seq<nat>, valuePicks: seq<nat>)
      requires |cellPicks| == |valuePicks| == StartTiles
      modifies this
      ensures Valid()
      ensures grid == SpawnedMany(EmptyGrid(), cellPicks, valuePicks)
      ensures score == 0 && best == old(best) && overlayHidden
    {
      grid := EmptyGrid();
      score := 0;
      overlayHidden := true;
      for i := 0 to StartTiles
        invariant grid == SpawnedMany(EmptyGrid(), cellPicks[..i], valuePicks[..i])
        invariant score == 0 && best == old(best) && overlayHidden
      {
        SpawnedManyStep(EmptyGrid(), cellPicks, valuePicks, i);
        AddTile(cellPicks[i], valuePicks[i]);
      }
      assert cellPicks[..StartTiles] == cellPicks && valuePicks[..StartTiles] == valuePicks;
      Render();
    }

    /** addTile with the two random choices passed in: the empty cells are listed row by
        row; with none the board is unchanged, otherwise the chosen one receives the chosen
        spawn value. */
    method AddTile(cellPick: nat, valuePick: nat)
      requires IsGrid(grid)
      modifies this`grid
      ensures grid == Spawned(old(grid), SpawnValues, cellPick, valuePick)
      ensures IsGrid(grid)
    {
      SpawnedFacts(grid, SpawnValues, cellPick, valuePick);
      var empty: seq<(nat, nat)> := [];
      for r := 0 to Size
        invariant empty == EmptyRows(grid, r)
      {
        for c := 0 to Size
          invariant empty == EmptyRows(grid, r) + RowEmpties(grid, r, c)
        {
          if grid[r][c] == 0 {
            empty := empty + [(r, c)];
          }
        }
      }
      if |empty| == 0 {
        return;
      }
      var cell := empty[cellPick % |empty|];
      var r, c := cell.0, cell.1;
      grid := grid[r := grid[r][c := SpawnValues[valuePick % |SpawnValues|]]];
    }

    /** The state change of render: the best score becomes the larger of itself and the
        score. */
    method Render()
      modifies this`best
      ensures best == Max(old(best), score)
    {
      best := Max(best, score);
    }

    /** moveLeft: the callback of grid.map is RowLeft; moved is set when a result row
        differs from the row it came from. The board itself is not changed. */
    method MoveLeft() returns (newGrid: Grid, moved: bool, gained: nat)
      requires IsGrid(grid)
      ensures Outcome(newGrid, moved, gained) == LeftOutcome(grid)
      ensures moved <==> newGrid != grid
      ensures !moved ==> gained == 0
    {
      var rows := grid;
      moved := false;
      gained := 0;
      newGrid := [];
      for r := 0 to Size
        invariant newGrid == SlideRows(rows)[..r] && (moved <==> newGrid != rows[..r])
        invariant gained == Sum(RowGains(rows)[..r])
      {
        var mergedRow, rowGain, changed := RowLeft(rows[r]);
        LeftStep(rows, r, newGrid, moved, gained, mergedRow, rowGain);
        if changed {
          moved := true;
        }
        gained := gained + rowGain;
        newGrid := newGrid + [mergedRow];
      }
      LeftDone(rows, newGrid, moved, gained);
      LeftOutcomeFacts(rows);
    }

    /** rotateGrid: a copy of the board turned ForwardTurns(direction) times. */
    method RotateGrid(direction: Direction) returns (rotated: Grid)
      requires IsGrid(grid)
      ensures rotated == Rotate(grid, ForwardTurns(direction))
      ensures Rotate(rotated, InverseTurns(direction)) == grid
    {
      rotated := grid;
      var turns := ForwardTurns(direction);
      for t := 0 to turns
        invariant rotated == Rotate(grid, t)
      {
        rotated := TurnOnce(rotated);
      }
      RoundTrip(grid, direction);
    }

    /** setGrid: the board becomes newGrid turned InverseTurns(direction) times. */
    method SetGrid(newGrid: Grid, direction: Direction)
      requires IsGrid(newGrid)
      modifies this`grid
      ensures grid == Rotate(newGrid, InverseTurns(direction))
    {
      var rotated := newGrid;
      var turns := InverseTurns(direction);
      for t := 0 to turns
        invariant rotated == Rotate(newGrid, t)
      {
        rotated := TurnOnce(rotated);
      }
      grid := rotated;
    }

    /** canMove: an empty cell, then equal horizontal neighbours, then equal vertical
        neighbours. */
    method CanMove() returns (b: bool)
      requires IsGrid(grid)
      ensures b == Movable(grid)
    {
      if exists r :: 0 <= r < Size && 0 in grid[r] {
        return true;
      }
      for r := 0 to Size
        invariant forall i: nat, j: nat :: i < r && j < Size - 1 ==> !EqualRight(grid, i, j)
      {
        for c := 0 to Size - 1
          invariant forall i: nat, j: nat :: (i < r || (i == r && j < c)) && j < Size - 1 ==> !EqualRight(grid, i, j)
        {
          if grid[r][c] == grid[r][c + 1] {
            assert EqualRight(grid, r, c);
            return true;
          }
        }
      }
      for c := 0 to Size
        invariant forall i: nat, j: nat :: i < Size - 1 && j < c ==> !EqualBelow(grid, i, j)
      {
        for r := 0 to Size - 1
          invariant forall i: nat, j: nat :: i < Size - 1 && (j < c || (j == c && i < r)) ==> !EqualBelow(grid, i, j)
        {
          if grid[r][c] == grid[r + 1][c] {
            assert EqualBelow(grid, r, c);
            return true;
          }
        }
      }
      return false;
    }

    /** The left branch of handleMove: moveLeft on the board itself; a move that changes
        nothing returns at once, otherwise the board is replaced, the gain added, a tile
        spawned and render called. */
    method ShiftLeft(cellPick: nat, valuePick: nat) returns (moved: bool)
      requires IsGrid(grid)
      modifies this`grid, this`score, this`best
      ensures moved == Apply(old(grid), Left).moved
      ensures !moved ==> grid == old(grid) && score == old(score) && best == old(best)
      ensures moved ==>
        && grid == Spawned(Apply(old(grid), Left).grid, SpawnValues, cellPick, valuePick)
        && score == old(score) + Apply(old(grid), Left).gain
        && best == Max(old(best), score)
    {
      var newGrid, gained;
      newGrid, moved, gained := MoveLeft();
      if !moved {
        return;
      }
      grid := newGrid;
      score := score + gained;
      AddTile(cellPick, valuePick);
      Render();
    }

    /** The other branch of handleMove: the board is turned, moved left and, when something
        moved, turned back by setGrid before the gain is added, a tile spawned and render
        called. A move that changes nothing puts the original board back. */
    method ShiftTurned(direction: Direction, cellPick: nat, valuePick: nat) returns (moved: bool)
      requires IsGrid(grid)
      modifies this`grid, this`score, this`best
      ensures moved == Apply(old(grid), direction).moved
      ensures !moved ==> grid == old(grid) && score == old(score) && best == old(best)
      ensures moved ==>
        && grid == Spawned(Apply(old(grid), direction).grid, SpawnValues, cellPick, valuePick)
        && score == old(score) + Apply(old(grid), direction).gain
        && best == Max(old(best), score)
    {
      ghost var o := Apply(grid, direction);
      var rotated := RotateGrid(direction);
      var original := grid;
      grid := rotated;
      var newGrid, gained;
      newGrid, moved, gained := MoveLeft();
      assert moved == o.moved && gained == o.gain;
      if !moved {
        grid := original;
        return;
      }
      score := score + gained;
      LeftOutcomeFacts(rotated);
      SetGrid(newGrid, direction);
      assert grid == o.grid;
      AddTile(cellPick, valuePick);
      Render();
    }

    /** handleMove with the random choices of the spawned tile passed in: the new state is
        Handled of the old one. */
    method HandleMove(direction: Direction, cellPick: nat, valuePick: nat)
      requires Valid()
      modifies this
      ensures Valid()
      ensures State(grid, score, best, overlayHidden)
           == Handled(old(State(grid, score, best, overlayHidden)), direction, cellPick, valuePick)
    {
      HandledFacts(State(grid, score, best, overlayHidden), direction, cellPick, valuePick);
      if !overlayHidden {
        return;
      }
      var moved;
      if direction == Left {
        moved := ShiftLeft(cellPick, valuePick);
      } else {
        moved := ShiftTurned(direction, cellPick, valuePick);
      }
      if !moved {
        return;
      }
      var canMove := CanMove();
      if !canMove {
        overlayHidden := false;
      }
    }
  }
}
