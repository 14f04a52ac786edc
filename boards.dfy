/** The 4x4 board common to both games: the grid, the four directions, the outcome of a move,
    the board-wide left move, the terminal test, the list of empty cells and tile spawning. */
module Boards {
  import opened Tiles

  /** A board: a list of rows, 0 meaning an empty cell. */
  type Grid = seq<seq<nat>>

  /** A well-formed board has Size rows of Size cells. */
  predicate IsGrid(g: Grid)
  {
    |g| == Size && forall i :: 0 <= i < |g| ==> |g[i]| == Size
  }

  datatype Direction = Left | Right | Up | Down

  /** What a move returns: the new board, whether any tile moved, and the score gained. */
  datatype Outcome = Outcome(grid: Grid, moved: bool, gain: nat)

  /** The row read from its last cell to its first. */
  function Reverse(s: seq<nat>): (r: seq<nat>)
    ensures |r| == |s|
  {
    seq(|s|, k requires 0 <= k < |s| => s[|s| - 1 - k])
  }

  /** Column c read from the top row to the bottom row. */
  function Column(g: Grid, c: nat): (col: seq<nat>)
    requires IsGrid(g) && c < Size
    ensures |col| == Size
  {
    seq(Size, r requires 0 <= r < Size => g[r][c])
  }

  /** The sum of all cells: the "Sum" shown by the console game (2048_game.py:83). */
  function GridSum(g: Grid): nat
  {
    if g == [] then 0 else Sum(g[0]) + GridSum(g[1..])
  }

  /** The left move applied to every row. */
  function SlideRows(g: Grid): (r: Grid)
    requires IsGrid(g)
    ensures IsGrid(r)
  {
    seq(Size, i requires 0 <= i < Size => Slide(g[i]))
  }

  /** The score each row gains in a left move. */
  function RowGains(g: Grid): seq<nat>
    requires IsGrid(g)
  {
    seq(Size, i requires 0 <= i < Size => RowGain(g[i]))
  }

  /** The score a left move of the whole board gains. */
  function GridGain(g: Grid): nat
    requires IsGrid(g)
  {
    Sum(RowGains(g))
  }

  /** The outcome of a left move: the slid rows, whether some row changed, and the gain. */
  function LeftOutcome(g: Grid): Outcome
    requires IsGrid(g)
  {
    Outcome(SlideRows(g), SlideRows(g) != g, GridGain(g))
  }

  predicate HasEmptyCell(g: Grid)
    requires IsGrid(g)
  {
    exists r, c :: 0 <= r < Size && 0 <= c < Size && g[r][c] == 0
  }

  /** Cell (r, c) equals its right neighbour. */
  predicate EqualRight(g: Grid, r: nat, c: nat)
    requires IsGrid(g) && r < Size && c < Size - 1
  {
    g[r][c] == g[r][c + 1]
  }

  /** Cell (r, c) equals the cell below it. */
  predicate EqualBelow(g: Grid, r: nat, c: nat)
    requires IsGrid(g) && r < Size - 1 && c < Size
  {
    g[r][c] == g[r + 1][c]
  }

  predicate HasEqualHorizontal(g: Grid)
    requires IsGrid(g)
  {
    exists r: nat, c: nat :: r < Size && c < Size - 1 && EqualRight(g, r, c)
  }

  predicate HasEqualVertical(g: Grid)
    requires IsGrid(g)
  {
    exists r: nat, c: nat :: r < Size - 1 && c < Size && EqualBelow(g, r, c)
  }

  /** The terminal test of both games: an empty cell, or equal horizontal or vertical
      neighbours. */
  predicate Movable(g: Grid)
    requires IsGrid(g)
  {
    HasEmptyCell(g) || HasEqualHorizontal(g) || HasEqualVertical(g)
  }

  /** Every cell is empty. */
  predicate AllEmpty(g: Grid)
    requires IsGrid(g)
  {
    forall r, c :: 0 <= r < Size && 0 <= c < Size ==> g[r][c] == 0
  }

  /** The board with every cell empty. */
  function EmptyGrid(): (g: Grid)
    ensures IsGrid(g)
  {
    seq(Size, _ => Zeros(Size))
  }

  /** The empty cells (r, j) of row r with j < c, left to right. */
  function RowEmpties(g: Grid, r: nat, c: nat): (e: seq<(nat, nat)>)
    requires IsGrid(g) && r < Size && c <= Size
    ensures forall k :: 0 <= k < |e| ==> e[k].0 == r && e[k].1 < c && g[r][e[k].1] == 0
  {
    if c == 0 then []
    else RowEmpties(g, r, c - 1) + (if g[r][c - 1] == 0 then [(r, c - 1)] else [])
  }

  /** The empty cells of the rows above row r, in row-major order. */
  function EmptyRows(g: Grid, r: nat): (e: seq<(nat, nat)>)
    requires IsGrid(g) && r <= Size
    ensures forall k :: 0 <= k < |e| ==> e[k].0 < r && e[k].1 < Size && g[e[k].0][e[k].1] == 0
  {
    if r == 0 then [] else EmptyRows(g, r - 1) + RowEmpties(g, r - 1, Size)
  }

  /** The empty cells of the board in row-major order. */
  function EmptyCells(g: Grid): (e: seq<(nat, nat)>)
    requires IsGrid(g)
    ensures forall k :: 0 <= k < |e| ==> e[k].0 < Size && e[k].1 < Size && g[e[k].0][e[k].1] == 0
  {
    EmptyRows(g, Size)
  }

  /** The board after one tile is spawned: the empty cell at position cellPick (modulo their
      number) of the row-major list of empty cells receives values[valuePick modulo |values|];
      with no empty cell the board is unchanged. */
  function Spawned(g: Grid, values: seq<nat>, cellPick: nat, valuePick: nat): (s: Grid)
    requires IsGrid(g) && |values| > 0
    ensures IsGrid(s)
  {
    var empty := EmptyCells(g);
    if |empty| == 0 then g
    else
      var cell := empty[cellPick % |empty|];
      g[cell.0 := g[cell.0][cell.1 := values[valuePick % |values|]]]
  }

  // ---------------------------------------------------------------------------
  // Equality and sums of boards

  /** Extending two lists of the same length by one element each: the results are equal
      exactly when the lists and the new elements are. */
  lemma AppendEqual<T>(a: seq<T>, b: seq<T>, x: T, y: T)
    requires |a| == |b|
    ensures a + [x] == b + [y] <==> a == b && x == y
  {
    if a + [x] == b + [y] {
      assert a == (a + [x])[..|a|] && b == (b + [y])[..|b|];
      assert x == (a + [x])[|a|] && y == (b + [y])[|b|];
    }
  }

  /** The left move row by row: after the first r rows the partial board, the moved flag and
      the running gain still agree with the move on the whole board once row r is added. */
  lemma LeftStep(g: Grid, r: nat, newGrid: Grid, moved: bool, gained: nat, row: seq<nat>, rowGain: nat)
    requires IsGrid(g) && r < Size
    requires newGrid == SlideRows(g)[..r] && (moved <==> newGrid != g[..r])
    requires gained == Sum(RowGains(g)[..r])
    requires row == Slide(g[r]) && rowGain == RowGain(g[r])
    ensures newGrid + [row] == SlideRows(g)[..r + 1]
    ensures moved || row != g[r] <==> newGrid + [row] != g[..r + 1]
    ensures gained + rowGain == Sum(RowGains(g)[..r + 1])
  {
    assert SlideRows(g)[..r + 1] == SlideRows(g)[..r] + [row];
    assert g[..r + 1] == g[..r] + [g[r]];
    AppendEqual(newGrid, g[..r], row, g[r]);
    SumPrefixStep(RowGains(g), r);
  }

  /** When all rows are done the partial results are those of the left move. */
  lemma LeftDone(g: Grid, newGrid: Grid, moved: bool, gained: nat)
    requires IsGrid(g)
    requires newGrid == SlideRows(g)[..Size] && (moved <==> newGrid != g[..Size])
    requires gained == Sum(RowGains(g)[..Size])
    ensures Outcome(newGrid, moved, gained) == LeftOutcome(g)
  {
    assert SlideRows(g)[..Size] == SlideRows(g);
    assert g[..Size] == g;
    assert RowGains(g)[..Size] == RowGains(g);
  }

  /** Two boards with the same cells are equal. */
  lemma GridExt(a: Grid, b: Grid)
    requires IsGrid(a) && IsGrid(b)
    requires forall i, j :: 0 <= i < Size && 0 <= j < Size ==> a[i][j] == b[i][j]
    ensures a == b
  {
    forall i | 0 <= i < Size
      ensures a[i] == b[i]
    {
      assert forall j :: 0 <= j < Size ==> a[i][j] == b[i][j];
    }
  }

  /** Boards whose rows have pairwise equal sums have equal sums. */
  lemma {:induction false} GridSumByRows(a: Grid, b: Grid)
    requires |a| == |b|
    requires forall i :: 0 <= i < |a| ==> Sum(a[i]) == Sum(b[i])
    ensures GridSum(a) == GridSum(b)
  {
    if a != [] {
      GridSumByRows(a[1..], b[1..]);
    }
  }

  /** Reading a row backwards does not change its sum. */
  lemma {:induction false} SumReverse(s: seq<nat>)
    ensures Sum(Reverse(s)) == Sum(s)
  {
    if s != [] {
      var init := s[..|s| - 1];
      assert s == init + [s[|s| - 1]];
      assert Reverse(s) == [s[|s| - 1]] + Reverse(init);
      SumReverse(init);
      SumAppend(init, [s[|s| - 1]]);
      SumAppend([s[|s| - 1]], Reverse(init));
    }
  }

  /** A row of Size cells sums to its four cells. */
  lemma SumOfRow(s: seq<nat>)
    requires |s| == Size
    ensures Sum(s) == s[0] + s[1] + s[2] + s[3]
  {
    assert s[3..][1..] == [];
    assert Sum(s[3..]) == s[3];
    assert s[2..][1..] == s[3..];
    assert Sum(s[2..]) == s[2] + s[3];
    assert s[1..][1..] == s[2..];
    assert Sum(s[1..]) == s[1] + s[2] + s[3];
  }

  /** The sum of a board, cell by cell. */
  lemma GridSumOfCells(g: Grid)
    requires IsGrid(g)
    ensures GridSum(g) == g[0][0] + g[0][1] + g[0][2] + g[0][3]
                        + g[1][0] + g[1][1] + g[1][2] + g[1][3]
                        + g[2][0] + g[2][1] + g[2][2] + g[2][3]
                        + g[3][0] + g[3][1] + g[3][2] + g[3][3]
  {
    assert g[3..][1..] == [];
    assert GridSum(g[3..]) == Sum(g[3]);
    assert g[2..][1..] == g[3..];
    assert GridSum(g[2..]) == Sum(g[2]) + Sum(g[3]);
    assert g[1..][1..] == g[2..];
    assert GridSum(g[1..]) == Sum(g[1]) + Sum(g[2]) + Sum(g[3]);
    SumOfRow(g[0]);
    SumOfRow(g[1]);
    SumOfRow(g[2]);
    SumOfRow(g[3]);
  }

  /** The sum of a row of zero gains is zero. */
  lemma SumOfGainsZero(s: seq<nat>)
    requires forall k :: 0 <= k < |s| ==> s[k] == 0
    ensures Sum(s) == 0
  {
    assert s == Zeros(|s|);
    ZerosFacts(|s|);
  }

  // ---------------------------------------------------------------------------
  // The board-wide left move: 2048_game.py:118-130, app.js:100-114

  /** A left move returns a board whose rows are all packed, keeps the board's sum, reports a
      move exactly when the board changed, and when nothing moved returns the board as it
      was with no score. */
  lemma LeftOutcomeFacts(g: Grid)
    requires IsGrid(g)
    ensures IsGrid(LeftOutcome(g).grid)
    ensures forall i :: 0 <= i < Size ==> IsPacked(LeftOutcome(g).grid[i])
    ensures GridSum(LeftOutcome(g).grid) == GridSum(g)
    ensures LeftOutcome(g).moved <==> LeftOutcome(g).grid != g
    ensures !LeftOutcome(g).moved ==> LeftOutcome(g).grid == g && LeftOutcome(g).gain == 0
  {
    var n := SlideRows(g);
    forall i | 0 <= i < Size
      ensures IsPacked(n[i]) && Sum(n[i]) == Sum(g[i])
    {
      SlideFacts(g[i]);
    }
    GridSumByRows(n, g);
    if n == g {
      forall i | 0 <= i < Size
        ensures RowGains(g)[i] == 0
      {
        assert Slide(g[i]) == g[i];
        SlideFixedNoGain(g[i]);
      }
      SumOfGainsZero(RowGains(g));
    }
  }

  /** A left move leaves the board unchanged exactly when every row is packed and has no
      adjacent equal non-zero pair. */
  lemma LeftFixedIff(g: Grid)
    requires IsGrid(g)
    ensures SlideRows(g) == g <==> forall i :: 0 <= i < Size ==> Still(g[i])
  {
    forall i | 0 <= i < Size
      ensures Slide(g[i]) == g[i] <==> Still(g[i])
    {
      SlideFixedIff(g[i]);
    }
    if SlideRows(g) != g {
      var i :| 0 <= i < Size && SlideRows(g)[i] != g[i];
    }
  }

  // ---------------------------------------------------------------------------
  // The empty-cell list: 2048_game.py:63, app.js:45-52

  lemma {:induction false} RowEmptiesHas(g: Grid, r: nat, c: nat, j: nat)
    requires IsGrid(g) && r < Size && c <= Size
    requires j < c && g[r][j] == 0
    ensures (r, j) in RowEmpties(g, r, c)
  {
    if j < c - 1 {
      RowEmptiesHas(g, r, c - 1, j);
    }
  }

  lemma {:induction false} EmptyRowsHas(g: Grid, r: nat, i: nat, j: nat)
    requires IsGrid(g) && r <= Size
    requires i < r && j < Size && g[i][j] == 0
    ensures (i, j) in EmptyRows(g, r)
  {
    if i < r - 1 {
      EmptyRowsHas(g, r - 1, i, j);
    } else {
      RowEmptiesHas(g, i, Size, j);
    }
  }

  /** The list holds exactly the empty cells of the board, and is empty exactly when the
      board has no empty cell. */
  lemma EmptyCellsIff(g: Grid)
    requires IsGrid(g)
    ensures forall i: nat, j: nat :: (i, j) in EmptyCells(g) <==> i < Size && j < Size && g[i][j] == 0
    ensures |EmptyCells(g)| > 0 <==> HasEmptyCell(g)
  {
    var e := EmptyCells(g);
    forall i: nat, j: nat | i < Size && j < Size && g[i][j] == 0
      ensures (i, j) in e
    {
      EmptyRowsHas(g, Size, i, j);
    }
    forall i: nat, j: nat | (i, j) in e
      ensures i < Size && j < Size && g[i][j] == 0
    {
      var k :| 0 <= k < |e| && e[k] == (i, j);
    }
    if HasEmptyCell(g) {
      var i, j :| 0 <= i < Size && 0 <= j < Size && g[i][j] == 0;
      EmptyRowsHas(g, Size, i, j);
    }
  }

  /** Spawning keeps the board well formed; with no empty cell it changes nothing; otherwise
      exactly the chosen cell, which was empty, receives the chosen value and every other cell
      is unchanged. */
  lemma SpawnedFacts(g: Grid, values: seq<nat>, cellPick: nat, valuePick: nat)
    requires IsGrid(g) && |values| > 0
    ensures IsGrid(Spawned(g, values, cellPick, valuePick))
    ensures !HasEmptyCell(g) ==> Spawned(g, values, cellPick, valuePick) == g
    ensures HasEmptyCell(g) ==>
      var empty := EmptyCells(g);
      var s := Spawned(g, values, cellPick, valuePick);
      && |empty| > 0
      && var cell := empty[cellPick % |empty|];
      && g[cell.0][cell.1] == 0
      && s[cell.0][cell.1] == values[valuePick % |values|]
      && forall i, j :: 0 <= i < Size && 0 <= j < Size && (i, j) != cell ==> s[i][j] == g[i][j]
  {
    EmptyCellsIff(g);
  }

  /** Boards that differ only in cell (r0, c0), empty in g and taken in h: row r of h has one
      empty cell fewer among its first c exactly when the cell is one of them. */
  lemma {:induction false} RowEmptiesOneFewer(g: Grid, h: Grid, r0: nat, c0: nat, r: nat, c: nat)
    requires IsGrid(g) && IsGrid(h) && r0 < Size && c0 < Size && r < Size && c <= Size
    requires g[r0][c0] == 0 && h[r0][c0] != 0
    requires forall i, j :: 0 <= i < Size && 0 <= j < Size && (i, j) != (r0, c0) ==> h[i][j] == g[i][j]
    ensures |RowEmpties(h, r, c)| + (if r == r0 && c0 < c then 1 else 0) == |RowEmpties(g, r, c)|
  {
    if c > 0 {
      RowEmptiesOneFewer(g, h, r0, c0, r, c - 1);
    }
  }

  /** The same over the rows above row r. */
  lemma {:induction false} EmptyRowsOneFewer(g: Grid, h: Grid, r0: nat, c0: nat, r: nat)
    requires IsGrid(g) && IsGrid(h) && r0 < Size && c0 < Size && r <= Size
    requires g[r0][c0] == 0 && h[r0][c0] != 0
    requires forall i, j :: 0 <= i < Size && 0 <= j < Size && (i, j) != (r0, c0) ==> h[i][j] == g[i][j]
    ensures |EmptyRows(h, r)| + (if r0 < r then 1 else 0) == |EmptyRows(g, r)|
  {
    if r > 0 {
      EmptyRowsOneFewer(g, h, r0, c0, r - 1);
      RowEmptiesOneFewer(g, h, r0, c0, r - 1, Size);
    }
  }

  /** Spawning a non-zero value on a board with an empty cell leaves one empty cell fewer. */
  lemma SpawnedOneFewer(g: Grid, values: seq<nat>, cellPick: nat, valuePick: nat)
    requires IsGrid(g) && |values| > 0 && 0 !in values && HasEmptyCell(g)
    ensures |EmptyCells(Spawned(g, values, cellPick, valuePick))| == |EmptyCells(g)| - 1
  {
    SpawnedFacts(g, values, cellPick, valuePick);
    var empty := EmptyCells(g);
    var cell := empty[cellPick % |empty|];
    EmptyRowsOneFewer(g, Spawned(g, values, cellPick, valuePick), cell.0, cell.1, Size);
  }

  /** Every tile of the board is one of values. */
  predicate TilesFrom(g: Grid, values: seq<nat>)
    requires IsGrid(g)
  {
    forall i, j :: 0 <= i < Size && 0 <= j < Size ==> g[i][j] == 0 || g[i][j] in values
  }

  /** The board with every cell empty is empty, and an empty board has no tile at all. */
  lemma EmptyBoard(g: Grid, values: seq<nat>)
    requires IsGrid(g) && AllEmpty(g)
    ensures AllEmpty(EmptyGrid())
    ensures TilesFrom(g, values)
  {
  }

  /** Spawning from values keeps every tile one of values. */
  lemma SpawnedTilesFrom(g: Grid, values: seq<nat>, cellPick: nat, valuePick: nat)
    requires IsGrid(g) && |values| > 0 && TilesFrom(g, values)
    ensures IsGrid(Spawned(g, values, cellPick, valuePick))
    ensures TilesFrom(Spawned(g, values, cellPick, valuePick), values)
  {
    SpawnedFacts(g, values, cellPick, valuePick);
  }

  /** Each spawn of a non-zero value on a board with n > 0 empty cells leaves n - 1. */
  lemma SpawnOnCount(g: Grid, values: seq<nat>, cellPick: nat, valuePick: nat, n: nat)
    requires IsGrid(g) && |values| > 0 && 0 !in values
    requires |EmptyCells(g)| == n && n > 0
    ensures |EmptyCells(Spawned(g, values, cellPick, valuePick))| == n - 1
  {
    EmptyCellsIff(g);
    SpawnedOneFewer(g, values, cellPick, valuePick);
  }

  /** Every cell of an empty board is listed. */
  lemma {:induction false} EmptyBoardCells(g: Grid, r: nat)
    requires IsGrid(g) && AllEmpty(g) && r <= Size
    ensures |EmptyRows(g, r)| == r * Size
  {
    if r > 0 {
      EmptyBoardCells(g, r - 1);
      EmptyBoardRowCells(g, r - 1, Size);
    }
  }

  lemma {:induction false} EmptyBoardRowCells(g: Grid, r: nat, c: nat)
    requires IsGrid(g) && AllEmpty(g) && r < Size && c <= Size
    ensures |RowEmpties(g, r, c)| == c
  {
    if c > 0 {
      EmptyBoardRowCells(g, r, c - 1);
    }
  }

  // ---------------------------------------------------------------------------
  // The terminal test and the lines of the board: 2048_game.py:159-171, app.js:148-167

  /** A line that a left move leaves unchanged: packed, with no adjacent equal tiles. */
  predicate Still(s: seq<nat>)
  {
    IsPacked(s) && !HasPair(s)
  }

  /** Every row and every column is still, read either way. */
  predicate AllLinesStill(g: Grid)
    requires IsGrid(g)
  {
    forall i :: 0 <= i < Size ==>
      Still(g[i]) && Still(Reverse(g[i])) && Still(Column(g, i)) && Still(Reverse(Column(g, i)))
  }

  /** Reading a line backwards keeps its adjacent equal pairs. */
  lemma PairReverse(s: seq<nat>)
    ensures HasPair(Reverse(s)) <==> HasPair(s)
  {
    var r := Reverse(s);
    if HasPair(s) {
      var i :| 0 <= i < |s| - 1 && s[i] != 0 && s[i] == s[i + 1];
      var k := |s| - 2 - i;
      assert r[k] != 0 && r[k] == r[k + 1];
    }
    if HasPair(r) {
      var k :| 0 <= k < |r| - 1 && r[k] != 0 && r[k] == r[k + 1];
      var i := |s| - 2 - k;
      assert s[i] != 0 && s[i] == s[i + 1];
    }
  }

  /** A line packed toward both ends that holds an empty cell is empty throughout. */
  lemma PackedBothWays(s: seq<nat>, k: nat, j: nat)
    requires IsPacked(s) && IsPacked(Reverse(s))
    requires k < |s| && s[k] == 0 && j < |s|
    ensures s[j] == 0
  {
    var r := Reverse(s);
    if j < k {
      assert r[|s| - 1 - k] == 0;
      assert r[|s| - 1 - j] == s[j];
    }
  }

  /** Every line stays still exactly when the terminal test fails or the board is empty. */
  lemma StillIff(g: Grid)
    requires IsGrid(g)
    ensures AllLinesStill(g) <==> !Movable(g) || AllEmpty(g)
  {
    if !Movable(g) || AllEmpty(g) {
      forall i | 0 <= i < Size
        ensures Still(g[i]) && Still(Reverse(g[i])) && Still(Column(g, i)) && Still(Reverse(Column(g, i)))
      {
        var row, col := g[i], Column(g, i);
        if HasPair(row) {
          var k :| 0 <= k < |row| - 1 && row[k] != 0 && row[k] == row[k + 1];
          assert EqualRight(g, i, k);
        }
        if HasPair(col) {
          var k :| 0 <= k < |col| - 1 && col[k] != 0 && col[k] == col[k + 1];
          assert EqualBelow(g, k, i);
        }
        PairReverse(row);
        PairReverse(col);
        if AllEmpty(g) {
          assert forall k :: 0 <= k < Size ==> Reverse(row)[k] == 0 && Reverse(col)[k] == 0;
        }
      }
    }
    if AllLinesStill(g) && !AllEmpty(g) {
      var r1, c1 :| 0 <= r1 < Size && 0 <= c1 < Size && g[r1][c1] != 0;
      if HasEmptyCell(g) {
        var r0, c0 :| 0 <= r0 < Size && 0 <= c0 < Size && g[r0][c0] == 0;
        PackedBothWays(g[r0], c0, c1);
        PackedBothWays(Column(g, c1), r0, r1);
        assert false;
      }
      assert !HasEqualHorizontal(g);
      forall r: nat, c: nat | r < Size - 1 && c < Size
        ensures !EqualBelow(g, r, c)
      {
        assert Column(g, c)[r] == g[r][c] && Column(g, c)[r + 1] == g[r + 1][c];
      }
    }
  }
}
