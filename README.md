# 2048 engine, modelled and verified in Dafny

The repository holds two implementations of the same 4x4 sliding-tile game.
`2048_game.py` is a console version and `app.js` is a browser version. Both share one
engine:
- Compressing a row packs its non-zero tiles to the left.
- The single left-to-right merge pass doubles each equal non-zero pair and empties the
  pair's right cell.
- A left move is compress, merge, compress. It reports whether anything moved and the
  score gained.
- The other directions come from changing the orientation of the board. The console
  version reverses rows and transposes. The browser version applies clockwise quarter
  turns before the move and the inverse number of turns after it.
- Around the engine sit the terminal test, the spawning of a random tile after each
  accepted move, and the session state of score and best score.

This project models both versions over a grid of natural numbers (`seq<seq<nat>>`, 0 meaning
an empty cell) and proves their properties:
- `tiles.dfy`, module `Tiles`: the row engine shared by both files. It defines
  `Compressed`, the single merge pass `Merged` / `MergeGain`, and `Slide` (compress, merge,
  compress), with their lemmas: packing, sum preservation, gain equals the sum of the
  doubled cells, no chained merges, and the fixed points of a slide.
- `boards.dfy`, module `Boards`: the 4x4 board. It defines the left move on a whole board
  (`LeftOutcome`), the terminal test `Movable`, the row-major list of empty cells
  `EmptyCells`, the spawning of one tile `Spawned`, and the lemmas about them.
- `console.dfy`, module `ConsoleGame`: the console version. `reverse_grid_rows` and
  `transpose_grid` are functions. `merge_row_left`, `move_left` and `can_move` are methods
  with loops. `add_new_tile`, `init_grid` and the accept step of `main` are methods without
  loops. All of them are proved against the specification functions.
- `web.dfy`, module `WebGame`: the browser version.
  - `compress` returns a fresh array.
  - `merge` works in place on an array.
  - `rotateGrid` and `setGrid` loop over quarter turns.
  - The module-level `grid`, `score` and `best`, plus the overlay's `hidden` flag, are the
    fields of class `Game`. `InitGame`, `AddTile`, `Render`, `SetGrid` and `HandleMove`
    update those fields. `MoveLeft`, `RotateGrid` and `CanMove` only read them, so the
    board is left untouched by them.
  - `HandleMove` is specified by the pure function `Handled` on a `State` value, and
    `HandledFacts` proves what the session promises.
- `versions.dfy`, module `Versions`: the two versions side by side.
  - Left and right agree.
  - The browser's "up" move is the console's "down" move, and the browser's "down" is the
    console's "up". One clockwise turn before a left move makes "up" pack the tiles toward
    the bottom row.
  - A concrete board shows that the same key behaves differently in the two versions.

The random choices (`random.choice`, `Math.floor(Math.random() * n)`) are parameters
`cellPick` and `valuePick`, reduced modulo the length of the list they index. Every draw in
range maps to itself, so each outcome of the source is some choice of the parameters.

Three points about what the code does:
- The browser turn counts (right 2, up 1, down 3) make "up" pack toward the bottom and
  "down" toward the top. This is the opposite of the console version.
- The terminal test (`can_move` / `canMove`) is not exact on the board with no tiles. It
  reports a move there, yet none of the four directions changes that board.
  `ConsoleGame.TerminalExact` and `Versions.WebTerminalExact` state the exact relation with
  this exception.
- Conservation of the tiles "modulo merges" is stated as the preserved total (`GridSum`,
  the "Sum" the console shows), together with the gain being exactly the sum of the
  doubled cells.

## Model

| member | source | states |
|---|---|---|
| Tiles.Compressed | 2048_game.py:102-105 | the compressed row always has exactly GRID_SIZE cells |
| Tiles.CompressFacts | 2048_game.py:102-105 | the compressed row has GRID_SIZE cells, is packed (no tile after an empty cell), holds the input's non-zero values in their original order, and has the input's sum |
| Tiles.CompressOfPacked | 2048_game.py:102-105 | a packed row of GRID_SIZE cells is its own compression |
| Tiles.CompressIdempotent | 2048_game.py:102-105 | compressing twice is compressing once |
| Tiles.Merged | 2048_game.py:108-115 | the merge pass keeps the row's length |
| Tiles.MergedSum | 2048_game.py:108-115 | the merge pass preserves the row's sum |
| Tiles.MergeGainIsDoubledSum | 2048_game.py:108-115 | the score gained is exactly the sum of the cells the pass doubled |
| Tiles.MergeGainZeroIff | 2048_game.py:108-115 | the pass gains nothing exactly when it leaves the row unchanged |
| Tiles.MergeGainPositiveIff | 2048_game.py:110-114 | the pass gains something exactly when the row has an equal non-zero adjacent pair |
| Tiles.MergedTileCount | 2048_game.py:110-114 | the pass never adds tiles, and removes at least one whenever it gains |
| Tiles.MergedAt | 2048_game.py:110-114 | no chained merges: each output cell is its input value, the double of the left cell of an equal non-zero pair, or that pair's emptied right cell |
| Tiles.MergeStep | 2048_game.py:110-114 | one iteration of the index loop: doubling cell i, emptying cell i+1 and adding the doubled value, or leaving both, keeps the finished prefix plus the pass over the rest equal to the pass over the whole row, and likewise for the gain |
| Tiles.MergedNoPair | 2048_game.py:110-114 | a row without an equal non-zero adjacent pair is left unchanged by the pass |
| Tiles.SlideFacts | 2048_game.py:123-125 | compress, merge, compress gives GRID_SIZE cells, packed, with the row's sum |
| Tiles.SlideFixedIff | 2048_game.py:123-126 | a row is unchanged by a slide exactly when it is packed and has no equal non-zero adjacent pair |
| Tiles.SlideFixedNoGain | 2048_game.py:123-129 | a row unchanged by a slide gains no score |
| Tiles.ExampleNoChain | 2048_game.py:110-125 | [2,2,2,2] merges to [4,0,4,0] with gain 8 and slides to [4,4,0,0] |
| Tiles.ExampleLeadingPair | 2048_game.py:123-125 | [2,0,2,2] slides to [4,2,0,0] with gain 4: compression first brings the two leading 2s together |
| Tiles.ExampleNoMove | 2048_game.py:123-126 | [2,4,8,16] is unchanged and gains nothing |
| Boards.SlideRows | 2048_game.py:122-128 | sliding every row gives a 4x4 board |
| Boards.LeftStep | 2048_game.py:122-129 | one iteration of the row loop of move_left extends the new board by the slid row, and the moved flag and the score by that row's change and gain |
| Boards.LeftDone | 2048_game.py:118-130 | after the last row the loop's results are exactly the left move of the board |
| Boards.LeftOutcomeFacts | 2048_game.py:118-130 | the left move gives a 4x4 board whose every row is packed, with the same total; moved holds exactly when the board changed; no move means the same board and gain 0 |
| Boards.LeftFixedIff | 2048_game.py:118-130 | the left move changes nothing exactly when every row is packed and has no equal non-zero adjacent pair |
| Boards.GridSumOfCells | 2048_game.py:83 | the total shown as "Sum" is the sum of the sixteen cells |
| Boards.EmptyCells | 2048_game.py:63 | every listed cell lies on the board and is empty |
| Boards.EmptyCellsIff | 2048_game.py:63-64 | a cell is listed exactly when it is on the board and empty; the list is non-empty exactly when some cell is empty |
| Boards.Spawned | 2048_game.py:62-68 | spawning a tile keeps a 4x4 board |
| Boards.SpawnedFacts | 2048_game.py:62-68 | with no empty cell the board is unchanged; otherwise exactly the chosen empty cell receives the chosen value and every other cell is unchanged |
| Boards.SpawnedOneFewer | 2048_game.py:62-68 | spawning a non-zero value on a board with an empty cell leaves exactly one empty cell fewer |
| Boards.SpawnedTilesFrom | 2048_game.py:62-68 | if every tile of the board comes from the value list, that stays true after a spawn |
| Boards.StillIff | 2048_game.py:159-171 | every line, read in both directions along rows and columns, is left alone by a slide exactly when the terminal test fails or the board has no tiles |
| ConsoleGame.ReverseGridRows | 2048_game.py:133-134 | reversing every row keeps a 4x4 board |
| ConsoleGame.ReverseGridRowsInvolution | 2048_game.py:133-134 | reversing every row twice gives the board back |
| ConsoleGame.ReverseGridRowsSum | 2048_game.py:133-134 | reversing every row keeps the total |
| ConsoleGame.TransposeGrid | 2048_game.py:137-138 | the transpose of a 4x4 board is a 4x4 board |
| ConsoleGame.TransposeInvolution | 2048_game.py:137-138 | transposing twice gives the board back |
| ConsoleGame.TransposeSum | 2048_game.py:137-138 | transposing keeps the total |
| ConsoleGame.MergeRowLeft | 2048_game.py:108-115 | the index loop computes the merge pass and its gain; the row's sum is preserved and the gain is the sum of the doubled cells |
| ConsoleGame.MoveLeft | 2048_game.py:118-130 | the loop computes the left move: every row packed, the total kept, moved exactly when the board changed, and gain 0 with the same board when nothing moved |
| ConsoleGame.MoveRight | 2048_game.py:141-144 | computes the right move, and every row of the result is packed toward the right |
| ConsoleGame.MoveUp | 2048_game.py:147-150 | computes the up move, and every column of the result is packed toward the top |
| ConsoleGame.MoveDown | 2048_game.py:153-156 | computes the down move, and every column of the result is packed toward the bottom |
| ConsoleGame.RightFacts | 2048_game.py:141-144 | move_right keeps the total, reports a move exactly when the board changes, and otherwise returns the same board with gain 0 |
| ConsoleGame.UpFacts | 2048_game.py:147-150 | move_up keeps the total, reports a move exactly when the board changes, and otherwise returns the same board with gain 0 |
| ConsoleGame.RightPacked | 2048_game.py:141-144 | after move_right every row, read from the right, is packed |
| ConsoleGame.UpPacked | 2048_game.py:147-150 | after move_up every column, read from the top, is packed |
| ConsoleGame.DownPacked | 2048_game.py:153-156 | after move_down every column, read from the bottom, is packed |
| ConsoleGame.ApplyFacts | 2048_game.py:214-223 | each move MOVE_MAP selects keeps a 4x4 board and its total, reports a move exactly when the board changes, and otherwise returns the same board with gain 0 |
| ConsoleGame.RightStillIff | 2048_game.py:141-144 | move_right changes nothing exactly when every row, read from the right, is left alone by a slide |
| ConsoleGame.UpStillIff | 2048_game.py:147-150 | move_up changes nothing exactly when every column, read from the top, is left alone by a slide |
| ConsoleGame.DownStillIff | 2048_game.py:153-156 | move_down changes nothing exactly when every column, read from the bottom, is left alone by a slide |
| ConsoleGame.TerminalExact | 2048_game.py:159-171 | none of the four moves changes the board exactly when can_move is false or the board has no tiles |
| ConsoleGame.NoMoveWhenStuck | 2048_game.py:159-171 | when can_move is false, every move returns moved=False, the same board and gain 0 |
| ConsoleGame.CanMove | 2048_game.py:159-171 | the early-return loops answer true exactly when some cell is empty or some horizontal or vertical neighbours are equal |
| ConsoleGame.AddNewTile | 2048_game.py:62-68 | returns False and the same board exactly when no cell is empty; otherwise the chosen empty cell receives a value of NEW_TILE_VALUES and every other cell is unchanged |
| ConsoleGame.InitGrid | 2048_game.py:55-59 | the board is an empty 4x4 board with two tiles spawned one after the other |
| ConsoleGame.StartCount | 2048_game.py:55-59 | two spawns on an empty board leave exactly fourteen empty cells, and every tile is a value of NEW_TILE_VALUES |
| ConsoleGame.AcceptMove | 2048_game.py:279-283 | a move that changes nothing leaves board and score as they were; a real move adds exactly its gain and spawns a tile on the moved board; the score never decreases, and the board changes only after a real move |
| WebGame.Compress | app.js:80-86 | returns a fresh array holding the row's non-zero values in order followed by zeros, packed, with the row's sum |
| WebGame.Merge | app.js:88-98 | changes the array in place into the merge pass of its old contents; returns that pass's gain, which is the sum of the doubled cells; preserves the sum |
| WebGame.ArraysEqual | app.js:144-146 | for rows of the same length the test is equality |
| WebGame.RowLeft | app.js:103-112 | the map callback gives the slid row and its gain, packed, with the row's sum; the changed test holds exactly when the result differs from the row |
| WebGame.TurnOnce | app.js:125 | one turn keeps a 4x4 board |
| WebGame.TurnOnceCells | app.js:125 | one turn maps new[i][j] to old[3-j][i] |
| WebGame.Rotate | app.js:124-126 | any number of turns keeps a 4x4 board |
| WebGame.RotateAdd | app.js:124-126 | a turns followed by b turns are a+b turns |
| WebGame.TwoTurnsCells | app.js:118-126 | two turns, used for "right", map new[i][j] to old[3-i][3-j] |
| WebGame.FourTurns | app.js:124-126 | four turns give the board back |
| WebGame.RoundTrip | app.js:116-142 | for every direction, setGrid's turn count undoes rotateGrid's and the other way round (1+3, 2+2, 3+1, 0+0) |
| WebGame.ApplyFacts | app.js:174-196 | every move keeps a 4x4 board, reports a move exactly when the board changes, and otherwise returns the same board with gain 0 |
| WebGame.Max | app.js:76 | Math.max is at least both arguments and is one of them |
| WebGame.SpawnedMany | app.js:38-40 | spawning startTiles tiles keeps a 4x4 board |
| WebGame.SpawnedManyStep | app.js:38-40 | one more iteration of initGame's loop spawns one more tile |
| WebGame.SpawnedManyCount | app.js:35-40 | on an empty board, n spawns leave exactly 16-n empty cells, and every tile is a value of spawnValues |
| WebGame.HandledFacts | app.js:169-201 | handling a key keeps a 4x4 board and best at least score; score and best never decrease; nothing changes while the overlay is shown or when the move changes nothing; a real move with the overlay hidden spawns a tile on the moved board, adds exactly the move's gain, sets best = max(old best, new score) and hides the overlay exactly when a move is still possible |
| WebGame.Game.constructor | app.js:12-14 | loading the script starts the first game on an empty board with startTiles tiles, score 0, best 0 and the overlay hidden |
| WebGame.Game.InitGame | app.js:30-42 | an empty board with startTiles tiles spawned, score 0, the overlay hidden, and the best score carried over |
| WebGame.Game.AddTile | app.js:44-58 | the board becomes the spawn of one tile from spawnValues at the chosen empty cell, or stays the same when no cell is empty |
| WebGame.Game.Render | app.js:76 | best becomes the larger of best and score |
| WebGame.Game.MoveLeft | app.js:100-114 | computes the left move of the board without changing it; moved holds exactly when the new board differs, and no move gains nothing |
| WebGame.Game.RotateGrid | app.js:116-128 | returns the board turned ForwardTurns(direction) times, which InverseTurns(direction) turns bring back to the board |
| WebGame.Game.SetGrid | app.js:130-142 | the board becomes newGrid turned InverseTurns(direction) times |
| WebGame.Game.CanMove | app.js:148-167 | answers true exactly when some cell is empty or some horizontal or vertical neighbours are equal |
| WebGame.Game.ShiftLeft | app.js:174-182 | the left branch: a move that changes nothing leaves the state as it was; a real move puts the moved board with one spawned tile, adds the gain and lifts best to the score |
| WebGame.Game.ShiftTurned | app.js:183-195 | the turned branch: a move that changes nothing restores the original board; a real move turns the result back, adds the gain, spawns a tile and lifts best to the score |
| WebGame.Game.HandleMove | app.js:169-201 | the new state is exactly Handled of the old one, and the board stays 4x4 with best at least score |
| Versions.TurnIsReverseTranspose | app.js:125 | one clockwise turn is a transpose followed by reversing every row |
| Versions.Turns | app.js:118-126 | one, two and three turns written with reverse_grid_rows, transpose_grid and a vertical flip |
| Versions.LeftOfFlip | 2048_game.py:118-130 | the left move of a vertically flipped board is the flipped left move, with the same flag and gain |
| Versions.LeftAgrees | app.js:174-182 | the browser left move is move_left |
| Versions.RightAgrees | app.js:119 | the browser right move is move_right |
| Versions.UpIsConsoleDown | app.js:120 | the browser up move is move_down |
| Versions.DownIsConsoleUp | app.js:121 | the browser down move is move_up |
| Versions.Agreement | app.js:116-128 | the browser move for d is the console move for d with up and down exchanged |
| Versions.WebMoveFacts | app.js:169-196 | every browser move keeps the total, reports a move exactly when the board changes, and otherwise returns the same board with gain 0 |
| Versions.WebPacking | app.js:118-125 | the browser right move packs rows toward the right, up packs columns toward the bottom, and down packs them toward the top |
| Versions.WebTerminalExact | app.js:148-167 | no browser move changes the board exactly when canMove is false or the board has no tiles |
| Versions.UpDiffers | app.js:120 | on a board with a single 2 in the top-left corner, the console up move changes nothing while the browser up move moves the tile |

## Left out

- Terminal and operating-system I/O: `clear_screen`, `enable_ansi_colors`, `get_input_key`,
  the welcome, quit and play-again prompts of `main`, and its key loop apart from the move
  step. These are input and output only.
- Presentation: `display_grid` and `format_cell`, apart from the total `Sum` at line 83, and
  the colour tables. In the browser, the DOM side of `render`, apart from the best-score
  update, plus `tileColors`, the element lookups, the event listeners and `handleKey`'s key
  matching. The overlay is a boolean field.
- The DOM guard at the start of `initGame`, which returns when page elements are missing.
  The model assumes the page is present.
- The restart and play-again buttons only call `initGame`, and `WebGame.Game.InitGame`
  models that.
- The probability distribution of `random.choice` and `Math.random`. The choices are
  parameters, so the model covers every possible outcome but not how likely each one is.
- JavaScript numbers are doubles and Python integers are unbounded. The model uses
  unbounded naturals, so precision loss on astronomically large tiles is not modelled.
- Python's `merge_row_left` and `add_new_tile` change the list they are given. Every
  caller passes a list it owns and uses the result afterwards, so the model treats them as
  values: `ConsoleGame.MergeRowLeft` over a `seq`, and `ConsoleGame.AddNewTile` returning
  the new board.
- `RowLeft`, `ShiftLeft` and `ShiftTurned` are not separate functions in `app.js`. They are
  the map callback of `moveLeft` and the two branches of `handleMove`, split out as methods.
- Conservation of the tile multiset "modulo merges" is stated through the preserved sum
  and the exact gain. No multiset statement is made.
- ConsoleGame.InitGrid: its contract gives the board as two spawns on the empty board. The
  count of tiles and their values are in `ConsoleGame.StartCount`, proved for any board
  with no tiles.
- WebGame.Game.InitGame: its contract gives the board as startTiles spawns on the empty
  board. The count of tiles is in `WebGame.SpawnedManyCount`.
- WebGame.Game.AddTile: its contract ties the new board to `Spawned`. That the chosen cell
  was empty and nothing else changed is in `Boards.SpawnedFacts`.
- WebGame.ArraysEqual: stated only for arrays of the same length, the only way `moveLeft`
  calls it. For a longer second argument the JavaScript test degenerates to a prefix test,
  which is not stated.
