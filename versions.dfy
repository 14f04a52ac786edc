/** The two games side by side. The browser game turns the board clockwise where the console
    game reverses rows and transposes; a clockwise quarter turn is a transpose followed by a
    reversal of every row. Its left and right moves therefore agree with the console game's,
    while its up move is the console game's down move and its down move the console game's
    up move: "up" gathers the tiles at the bottom of the board and "down" at the top. */
module Versions {
  import opened Tiles
  import opened Boards
  import ConsoleGame
  import WebGame

  /** The board upside down: the rows in the opposite order. */
  function Flip(g: Grid): (r: Grid)
    requires IsGrid(g)
    ensures IsGrid(r)
  {
    seq(Size, i requires 0 <= i < Size => g[Size - 1 - i])
  }

  // ---------------------------------------------------------------------------
  // Turns in terms of flips, row reversals and transposes

  /** One quarter turn is a transpose followed by reversing every row. */
  lemma TurnIsReverseTranspose(g: Grid)
    requires IsGrid(g)
    ensures WebGame.TurnOnce(g) == ConsoleGame.ReverseGridRows(ConsoleGame.TransposeGrid(g))
  {
    WebGame.TurnOnceCells(g);
    GridExt(WebGame.TurnOnce(g), ConsoleGame.ReverseGridRows(ConsoleGame.TransposeGrid(g)));
  }

  /** A quarter turn of a flipped board is a transpose. */
  lemma TurnOfFlip(g: Grid)
    requires IsGrid(g)
    ensures WebGame.TurnOnce(Flip(g)) == ConsoleGame.TransposeGrid(g)
  {
    WebGame.TurnOnceCells(Flip(g));
    GridExt(WebGame.TurnOnce(Flip(g)), ConsoleGame.TransposeGrid(g));
  }

  /** A quarter turn after the first one gives the flipped board with every row reversed. */
  lemma TurnOfReverseTranspose(g: Grid)
    requires IsGrid(g)
    ensures WebGame.TurnOnce(ConsoleGame.ReverseGridRows(ConsoleGame.TransposeGrid(g)))
         == Flip(ConsoleGame.ReverseGridRows(g))
  {
    var h := ConsoleGame.ReverseGridRows(ConsoleGame.TransposeGrid(g));
    WebGame.TurnOnceCells(h);
    GridExt(WebGame.TurnOnce(h), Flip(ConsoleGame.ReverseGridRows(g)));
  }

  /** Reversing the rows and then transposing is transposing and then flipping. */
  lemma TransposeOfReverse(g: Grid)
    requires IsGrid(g)
    ensures ConsoleGame.TransposeGrid(ConsoleGame.ReverseGridRows(g)) == Flip(ConsoleGame.TransposeGrid(g))
  {
    GridExt(ConsoleGame.TransposeGrid(ConsoleGame.ReverseGridRows(g)), Flip(ConsoleGame.TransposeGrid(g)));
  }

  /** Flipping and reversing every row can be done in either order. */
  lemma FlipReverseCommute(g: Grid)
    requires IsGrid(g)
    ensures ConsoleGame.ReverseGridRows(Flip(g)) == Flip(ConsoleGame.ReverseGridRows(g))
  {
  }

  /** The first three numbers of turns in terms of the console game's operations. */
  lemma Turns(g: Grid)
    requires IsGrid(g)
    ensures WebGame.Rotate(g, 1) == ConsoleGame.ReverseGridRows(ConsoleGame.TransposeGrid(g))
    ensures WebGame.Rotate(g, 2) == Flip(ConsoleGame.ReverseGridRows(g))
    ensures WebGame.Rotate(g, 3) == ConsoleGame.TransposeGrid(ConsoleGame.ReverseGridRows(g))
    ensures WebGame.Rotate(g, 3) == Flip(ConsoleGame.TransposeGrid(g))
  {
    assert WebGame.Rotate(g, 1) == WebGame.TurnOnce(g);
    TurnIsReverseTranspose(g);
    assert WebGame.Rotate(g, 2) == WebGame.TurnOnce(WebGame.Rotate(g, 1));
    TurnOfReverseTranspose(g);
    assert WebGame.Rotate(g, 3) == WebGame.TurnOnce(WebGame.Rotate(g, 2));
    TurnOfFlip(ConsoleGame.ReverseGridRows(g));
    TransposeOfReverse(g);
  }

  /** Turns of a flipped board: one is a transpose, two reverse every row. */
  lemma TurnsOfFlip(g: Grid)
    requires IsGrid(g)
    ensures WebGame.Rotate(Flip(g), 1) == ConsoleGame.TransposeGrid(g)
    ensures WebGame.Rotate(Flip(g), 2) == ConsoleGame.ReverseGridRows(g)
  {
    assert WebGame.Rotate(Flip(g), 1) == WebGame.TurnOnce(Flip(g));
    TurnOfFlip(g);
    Turns(Flip(g));
    FlipReverseCommute(g);
    FlipInvolution(ConsoleGame.ReverseGridRows(g));
  }

  // ---------------------------------------------------------------------------
  // The left move does not care about the order of the rows

  /** Flipping twice gives the board back. */
  lemma FlipInvolution(g: Grid)
    requires IsGrid(g)
    ensures Flip(Flip(g)) == g
  {
    GridExt(Flip(Flip(g)), g);
  }

  /** The row gains of a flipped board are the row gains in reverse order. */
  lemma FlipGains(g: Grid)
    requires IsGrid(g)
    ensures RowGains(Flip(g)) == Reverse(RowGains(g))
  {
  }

  /** A left move on a flipped board is the flipped left move, with the same flag and gain. */
  lemma {:induction false} LeftOfFlip(g: Grid)
    requires IsGrid(g)
    ensures LeftOutcome(Flip(g)) == Outcome(Flip(LeftOutcome(g).grid), LeftOutcome(g).moved, LeftOutcome(g).gain)
  {
    var n := SlideRows(g);
    assert SlideRows(Flip(g)) == Flip(n);
    FlipGains(g);
    SumReverse(RowGains(g));
    if Flip(n) == Flip(g) {
      FlipInvolution(n);
      FlipInvolution(g);
    }
  }

  // ---------------------------------------------------------------------------
  // The browser moves against the console moves

  lemma LeftAgrees(g: Grid)
    requires IsGrid(g)
    ensures WebGame.Apply(g, Left) == ConsoleGame.Apply(g, Left)
  {
  }

  /** Two turns, the left move and two turns back are move_right. */
  lemma RightAgrees(g: Grid)
    requires IsGrid(g)
    ensures WebGame.Apply(g, Right) == ConsoleGame.Apply(g, Right)
  {
    var h := ConsoleGame.ReverseGridRows(g);
    Turns(g);
    LeftOfFlip(h);
    TurnsOfFlip(LeftOutcome(h).grid);
  }

  /** The browser's up move is move_down: one turn is reverse after transpose, three turns
      transpose after reverse. */
  lemma UpIsConsoleDown(g: Grid)
    requires IsGrid(g)
    ensures WebGame.Apply(g, Up) == ConsoleGame.Apply(g, Down)
  {
    var t := ConsoleGame.TransposeGrid(g);
    Turns(g);
    Turns(LeftOutcome(ConsoleGame.ReverseGridRows(t)).grid);
  }

  /** The browser's down move is move_up: three turns are a flipped transpose, and one turn
      of a flipped board is a transpose. */
  lemma DownIsConsoleUp(g: Grid)
    requires IsGrid(g)
    ensures WebGame.Apply(g, Down) == ConsoleGame.Apply(g, Up)
  {
    var t := ConsoleGame.TransposeGrid(g);
    Turns(g);
    LeftOfFlip(t);
    TurnsOfFlip(LeftOutcome(t).grid);
  }

  /** The browser move named d is the console move named Mirror(d). */
  function Mirror(d: Direction): Direction
  {
    match d
    case Up => Down
    case Down => Up
    case _ => d
  }

  lemma Agreement(g: Grid, d: Direction)
    requires IsGrid(g)
    ensures WebGame.Apply(g, d) == ConsoleGame.Apply(g, Mirror(d))
  {
    match d
    case Left => LeftAgrees(g);
    case Right => RightAgrees(g);
    case Up => UpIsConsoleDown(g);
    case Down => DownIsConsoleUp(g);
  }

  // ---------------------------------------------------------------------------
  // What follows for the browser game

  /** Every browser move keeps the total of the tiles, reports a move exactly when the board
      changes and gains nothing when it does not. */
  lemma WebMoveFacts(g: Grid, d: Direction)
    requires IsGrid(g)
    ensures IsGrid(WebGame.Apply(g, d).grid)
    ensures GridSum(WebGame.Apply(g, d).grid) == GridSum(g)
    ensures WebGame.Apply(g, d).moved <==> WebGame.Apply(g, d).grid != g
    ensures !WebGame.Apply(g, d).moved ==> WebGame.Apply(g, d).grid == g && WebGame.Apply(g, d).gain == 0
  {
    Agreement(g, d);
    ConsoleGame.ApplyFacts(g, Mirror(d));
  }

  /** The browser's right move packs every row toward the right, its up move every column
      toward the bottom and its down move every column toward the top. */
  lemma WebPacking(g: Grid)
    requires IsGrid(g)
    ensures IsGrid(WebGame.Apply(g, Right).grid) && IsGrid(WebGame.Apply(g, Up).grid) && IsGrid(WebGame.Apply(g, Down).grid)
    ensures forall i :: 0 <= i < Size ==> IsPacked(Reverse(WebGame.Apply(g, Right).grid[i]))
    ensures forall c :: 0 <= c < Size ==> IsPacked(Reverse(Column(WebGame.Apply(g, Up).grid, c)))
    ensures forall c :: 0 <= c < Size ==> IsPacked(Column(WebGame.Apply(g, Down).grid, c))
  {
    RightAgrees(g);
    UpIsConsoleDown(g);
    DownIsConsoleUp(g);
    ConsoleGame.RightPacked(g);
    ConsoleGame.DownPacked(g);
    ConsoleGame.UpPacked(g);
  }

  /** canMove of the browser game is exact in the same way as can_move: no move changes the
      board exactly when it reports false or the board is empty. */
  lemma WebTerminalExact(g: Grid)
    requires IsGrid(g)
    ensures (forall d :: !WebGame.Apply(g, d).moved) <==> !Movable(g) || AllEmpty(g)
  {
    LeftAgrees(g);
    RightAgrees(g);
    UpIsConsoleDown(g);
    DownIsConsoleUp(g);
    ConsoleGame.TerminalExact(g);
    if !WebGame.Apply(g, Left).moved && !WebGame.Apply(g, Right).moved
       && !WebGame.Apply(g, Up).moved && !WebGame.Apply(g, Down).moved {
      forall d
        ensures !WebGame.Apply(g, d).moved
      {
        match d
        case Left =>
        case Right =>
        case Up =>
        case Down =>
      }
    }
  }

  /** The board with a single 2 in the top left corner. */
  function Corner(): (g: Grid)
    ensures IsGrid(g)
  {
    [[2, 0, 0, 0], [0, 0, 0, 0], [0, 0, 0, 0], [0, 0, 0, 0]]
  }

  /** Every column of Corner() is left alone by a slide toward the top. */
  lemma CornerColumnsStill()
    ensures forall c :: 0 <= c < Size ==> Still(Column(Corner(), c))
  {
    forall c | 0 <= c < Size
      ensures Still(Column(Corner(), c))
    {
      var col := Column(Corner(), c);
      assert col == (if c == 0 then [2, 0, 0, 0] else [0, 0, 0, 0]);
      assert !HasPair(col);
    }
  }

  /** Pressing the same direction can differ between the games: on Corner() the console up
      move changes nothing while the browser up move brings the tile down. */
  lemma UpDiffers()
    ensures !ConsoleGame.Apply(Corner(), Up).moved
    ensures WebGame.Apply(Corner(), Up).moved
  {
    var g := Corner();
    CornerColumnsStill();
    ConsoleGame.UpStillIff(g);
    ConsoleGame.DownStillIff(g);
    UpIsConsoleDown(g);
    var rc := Reverse(Column(g, 0));
    assert rc[0] == 0 && rc[3] == 2;
    assert !IsPacked(rc);
  }
}
