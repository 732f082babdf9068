# Minesweeper game-state engine in Dafny

This project models the game-state engine of a Win32 Minesweeper clone and
proves properties of that model. The model covers:

- the board: a flat array of tile numbers, where `-1` is a mine, and a
  parallel array of tile statuses (Normal, Revealed, Flag, Held);
- the optional wrap-around of either axis, and the horizontal and vertical
  storage shifts that arrow-key scrolling changes;
- computing the neighbour numbers (`Mine_AssignNumbers`);
- placing the mines at random (`Mine_NewRandomBoard`), including the
  random-number routine and the Fisher-Yates shuffle behind it;
- the first click, which moves a mine off the clicked tile;
- the uncover cascade from a zero tile and the win check;
- flagging with the right button;
- the tiles held down while a button is pressed, with a single click or a
  double click;
- the chord: uncovering around a number whose flags are all placed;
- the periodic mine movement ("moving mines" mode);
- arrow-key scrolling;
- routing mouse messages to the handlers;
- the clock and movement timers.

The model is organised as follows:

| module | file | covers |
|---|---|---|
| `MineDefs` | `mine_defs.dfy` | the constants, the status codes and the error codes of `Mine.h` |
| `MineDefs.Layout` | `mine_defs.dfy` | the index macro, with its shifts and wrap-around |
| `MineDefs.GameData` | `mine_defs.dfy` | the global game data, as a class whose fields the handlers update |
| `BoardSpec` | `board_spec.dfy` | the specification functions: counting mines and flags around a cell, renumbering a rectangle, and what "the numbers are consistent" means |
| `Mine` | `mine.dfy` | `Mine.cpp`'s board, timer, win and setup routines |
| `MineRandom` | `mine_random.dfy` | `Mine_Random` and `Mine_RandomPerm` over a stream of raw samples |
| `MineUncover` | `mine_uncover.dfy` | `MineMouse_UncoverTile` |
| `MineMouse` | `mine_mouse.dfy` | the other handlers of `MineMouse.cpp` |
| `MineMovement` | `mine_movement.dfy` | `MineMovement_ProcessMovement` |
| `MineWindow` | `mine_window.dfy` | the keyboard, mouse and timer cases of the window procedure |

The code is modelled in its own form:

- Routines that update the global game data in place are methods on a
  `GameData` object. Their `modifies` clauses are field by field.
- Loops stay loops. Each method is proved against a recursive specification
  function that runs the same iteration, and the properties are proved about
  that function.

The random generator's raw output is an input sequence of samples. Each
sample is one value, or a failure of the generator. The tick count is the
parameter `now`.

## Model

| member | source | states |
|---|---|---|
| MineDefs.StandardLevel | Mine.cpp:2102-2118 | exactly the three standard levels have a preset size, and each fits the maximum board and leaves a tile free |
| MineDefs.StatusCode | Mine.h:117-123 | the four tile statuses Normal, Revealed, Flag and Held are coded 0, 1, 2 and 3, so distinct statuses have distinct codes |
| MineDefs.CRem | Mine.h:156-157 | C's truncating remainder: it agrees with the mathematical one on non-negative operands, and its magnitude stays below the divisor |
| MineDefs.Wrap | Mine.cpp:266-326 | a neighbour coordinate that is accepted lies on the grid, and is the coordinate itself when the axis does not wrap |
| MineDefs.WrapIsModular | Mine.cpp:266-326 | on a wrapping axis, stepping one past either edge lands on the other edge (mod dim); on a non-wrapping axis, a neighbour exists exactly when it lies inside the grid |
| MineDefs.Layout.Index | Mine.h:156-157 | the shifted, wrapped index of a cell is in bounds for the board arrays |
| MineDefs.Layout.CellOf | Mine.h:156-157 | every array index belongs to a cell of the grid |
| MineDefs.Layout.IndexInBounds | Mine.h:156-157 | MINE_INDEX of an in-grid cell addresses the board arrays |
| MineDefs.Layout.IndexInjective | Mine.h:156-157 | two cells never share a storage index, whatever the shifts |
| MineDefs.Layout.IndexCellOf | Mine.h:156-157 | the cell of an index maps back to the same index |
| MineDefs.Layout.CellOfIndex | Mine.h:156-157 | the index of a cell maps back to the same cell (so storage is a bijection with the grid) |
| MineDefs.Layout.IndexWithoutShift | Mine.h:156-157 | with both shifts zero, the index is row-major `x + y * width` |
| MineDefs.Layout.Neighbour | Mine.cpp:262-334 | a neighbour that exists, under the wrap rules, is on the grid |
| MineDefs.GameData.LayValid | Mine.h:251-291 | valid game data gives a valid layout whose size is the length of the board arrays |
| MineDefs.GameData.AreaBound | Mine.h:67-69 | a board never exceeds 48x60 tiles, and its mine count fits an unsigned int |
| BoardSpec.RevealOne | MineMouse.cpp:1372-1390 | revealing a Normal tile takes one off the Normal count and adds one to the revealed safe count, or to the revealed mine count if it is a mine |
| BoardSpec.RevealedSafeBound | MineMouse.cpp:1492-1506 | the revealed safe tiles never outnumber the safe tiles, so numUncovered can reach the win condition but never pass it |
| BoardSpec.BlockCountBound | Mine.cpp:262-334 | a neighbour count is at most 8 (9 with the centre included) |
| BoardSpec.BlockCountZero | MineMouse.cpp:1410-1488 | the count around a cell is zero exactly when no neighbour (under the wrap rules) is marked |
| BoardSpec.BlockCountLocal | MineMovement.cpp:548-572 | the count around a cell depends only on that cell's neighbours |
| BoardSpec.ClampToGrid | Mine.cpp:240-243 | a clamped coordinate lies on the grid, and an in-grid coordinate is unchanged |
| BoardSpec.Renumber | Mine.cpp:252-338 | renumbering a rectangle keeps every mine where it is and every tile outside the rectangle unchanged |
| BoardSpec.RenumberAt | Mine.cpp:329-336 | inside the rectangle, a safe tile gets the number of mines around it and a mine stays a mine |
| BoardSpec.RenumberValues | Mine.cpp:252-338 | after renumbering a board of mines and counts, every tile is still -1 or 0..8 |
| BoardSpec.FullRenumberConsistent | MineMouse.cpp:88-89 | renumbering the whole board makes every number right |
| BoardSpec.RenumberIdempotent | Mine.cpp:252-338 | renumbering the same rectangle twice is the same as renumbering it once |
| BoardSpec.ConsistentIffFixpoint | Mine.cpp:252-338 | the numbers are all right exactly when renumbering the whole board changes nothing |
| Mine.CountNeighbourMines | Mine.cpp:262-334 | the loops over the neighbourhood count the mines around the cell (the specification count), at most 8 |
| Mine.CountColumn | Mine.cpp:267-334 | one column of the neighbourhood loop adds that column's mines, with the wrap rules |
| Mine.CountRows | Mine.cpp:295-334 | the inner loop counts the mines of the remaining rows of one column |
| Mine.ClampedRect | Mine.cpp:240-243 | the requested rectangle is clamped onto the grid |
| Mine.AssignNumbers | Mine.cpp:226-342 | an empty clamped rectangle is a parameter error and changes nothing; otherwise the board becomes Renumber of the old board over the clamped rectangle |
| Mine.RenumberRect | Mine.cpp:252-338 | the column and row loops leave exactly Renumber of the old board |
| Mine.SoFar | Mine.cpp:252-338 | the board part-way through the loops has the old board's mines |
| Mine.SoFarStart | Mine.cpp:252-256 | before the first cell the loops have changed nothing |
| Mine.SoFarStep | Mine.cpp:256-336 | one visit writes the count of its own cell (unless it is a mine) and nothing else |
| Mine.SoFarNextColumn | Mine.cpp:252-256 | the end of one column is the start of the next |
| Mine.SoFarEnd | Mine.cpp:252-338 | after the last column, the loops have produced Renumber |
| Mine.NewRandomBoard | Mine.cpp:726-766 | only mines are placed, an error comes only from the generator, and a successful run on an empty board places min(mines, tiles) mines |
| Mine.ElapsedSeconds | Mine.cpp:1520-1533 | the shown time lies in 0..999, and for a tick count at or after the start it is the whole seconds since the start, capped at 999 |
| Mine.ElapsedMonotone | Mine.cpp:1515-1541 | the shown time never goes backwards as the tick count grows |
| Mine.ElapsedBeforeStart | Mine.cpp:1523-1533 | a tick count before the start, by at most 2^64 − 1,000,000 ticks, wraps in the unsigned subtraction and shows 999 |
| Mine.ProcessTimer | Mine.cpp:1515-1541 | the timer leaves the ElapsedSeconds of the start time in the time field |
| Mine.IsNewRecord | Mine.cpp:599-601 | a win is a record exactly when the level is a standard one and the time beats that level's best |
| Mine.RecordMonotone | Mine.cpp:599-601 | a custom game never sets a record, and a faster win is a record whenever a slower one is |
| Mine.GameWon | Mine.cpp:580-628 | a win stops the clock at the elapsed time, sets the flag counter to the mine count without changing any tile status, ends the game as won, and reports whether the time is a record |
| Mine.BoardSize | Mine.cpp:2102-2127 | a standard level gets its preset size, and a custom level gets the custom height, width and mines; every size fits the maximum and leaves a free tile |
| Mine.CustomHasFreeTile | MineCustom.cpp:141-145 | the custom mine limit (height-1)*(width-1) leaves at least one free tile |
| Mine.SetupGame | Mine.cpp:2062-2204 | the board is sized for the level, the counters are reset, and the clock, button flags, remembered cell and shifts are cleared whatever the outcome; on success, fresh arrays with all tiles Normal, no numbers yet, and exactly `mines` mines; when placing the mines or, with random number images, drawing the glyphs fails, both arrays are released |
| Mine.SetupNumberImages | Mine.cpp:2926-2940 | the glyph order is the partial shuffle of 0..15 over its first eight places; on success or failure it is a permutation of 0..15, so the numbers 1..8 get eight different glyphs |
| Mine.ResetGameData | Mine.cpp:2097-2159 | every play counter, button flag, remembered cell and storage shift is reset, and the new arrays are installed |
| Mine.ResetPlay | Mine.cpp:2097-2130 | the play flags and counters start from zero |
| Mine.ResetBoard | Mine.cpp:2132-2159 | the new size and arrays are installed with no remembered cell and no shift |
| Mine.ZeroedBoard | Mine.cpp:2132-2148 | the freshly allocated board has no mines and every tile is Normal |
| Mine.PointInRect | Mine.cpp:1484-1507 | a point is in a rectangle exactly when it lies in the half-open box |
| Mine.SubsetMeansPointsInside | Mine.cpp:700-716 | the subset test holds exactly when every point of the (non-empty) rectangle lies in the boundary |
| MineRandom.UpperBound | Mine.cpp:1669-1674 | the rejection bound is the largest value below 2^32 whose successor is a multiple of the limit |
| MineRandom.AcceptedValuesUniform | Mine.cpp:1669-1729 | every residue occurs equally often among the accepted raw values, so the output is uniform whenever the raw reads are |
| MineRandom.DrawFrom | Mine.cpp:1677-1729 | a draw consumes samples; success gives a value below the limit, and failure reports a random-number error |
| MineRandom.RandomDraw | Mine.cpp:1554-1759 | a limit of 0 is a parameter error that consumes nothing; success gives a value below the limit; otherwise the generator failed |
| MineRandom.RandomDrawAccepted | Mine.cpp:1696-1729 | a first sample within the bound is accepted, giving its value mod the limit |
| MineRandom.Shuffle | Mine.cpp:1799-1815 | the shuffle keeps the length, and fails only when the generator does |
| MineRandom.ShufflePermutes | Mine.cpp:1801-1815 | the shuffled array is a permutation of the original, even after a failure |
| MineRandom.ShuffleKeepsPrefix | Mine.cpp:1801-1815 | positions before the current index are never touched |
| MineRandom.ShuffleDrawn | Mine.cpp:1803-1814 | a successful draw swaps position ix with a position in [ix, \|a\|) and the shuffle continues from ix + 1 |
| MineRandom.SwappedStays | Mine.cpp:1801-1815 | the entry swapped into position ix comes from a[ix..], and the later steps never move it again |
| MineRandom.Identity | MineMovement.cpp:363-376 | the initial order is 0..n-1 |
| MineRandom.PermutationOfIdentity | MineMovement.cpp:379-398 | a permutation of 0..n-1 has n entries, each a valid index |
| MineRandom.PermutationDistinct | Mine.cpp:2929-2934 | a permutation of 0..n-1 holds no value twice |
| MineRandom.RandomSource.Random | Mine.cpp:1554-1759 | Mine_Random returns RandomDraw of the pending samples and consumes what it used |
| MineRandom.SwapStep | Mine.cpp:1803-1814 | one iteration draws j and swaps the two entries; on failure the array stays as it was |
| MineRandom.RandomPerm | Mine.cpp:1773-1819 | more permutations than entries is a parameter error with nothing changed; otherwise the array and the samples become the Shuffle result |
| MineUncover.ProgressRefl | MineMouse.cpp:1345-1513 | doing nothing is progress that touched no mine |
| MineUncover.GrowsTrans | MineMouse.cpp:1410-1488 | two runs of uncovering compose |
| MineUncover.ProgressTrans | MineMouse.cpp:1410-1488 | progress composes, whether or not it touched a mine |
| MineUncover.ColsClearedAll | MineMouse.cpp:1410-1488 | the neighbour loop has cleared every column exactly when no Normal tile is left around the cell |
| MineUncover.UncoverStages | MineMouse.cpp:1345-1513 | the reveal, the cascade around a zero and the win check together give the whole contract of UncoverTile |
| MineUncover.UncoverTile | MineMouse.cpp:1345-1513 | after uncovering a Normal tile: it is Revealed; tiles only go from covered to Revealed; numUncovered counts the safe tiles revealed; no Normal tile is left around the clicked tile when it is a zero, nor around any zero the cascade reveals; a mine loses the game; the last safe tile wins it; a safe cascade touches no mine |
| MineUncover.RevealStep | MineMouse.cpp:1372-1390 | the reveal stage changes exactly the clicked tile; a mine ends the game as lost |
| MineUncover.RevealTile | MineMouse.cpp:1372-1390 | the method's effect on the tiles and counters is RevealStage |
| MineUncover.CheckWin | MineMouse.cpp:1492-1506 | when every safe tile is uncovered the game is won, and otherwise nothing changes |
| MineUncover.GrewKeepsCleared | MineMouse.cpp:1410-1488 | a block with no Normal tile stays so while tiles only get revealed |
| MineUncover.ZerosClearedTrans | MineMouse.cpp:1410-1488 | the flood fill of two successive runs of uncovering composes: every zero either run revealed has no Normal neighbour at the end |
| MineUncover.UncoverAround | MineMouse.cpp:1410-1488 | the neighbour loop leaves no Normal tile in the block, clears around every zero it reveals, and only uncovers |
| MineUncover.UncoverColumn | MineMouse.cpp:1413-1486 | one column of the loop clears that column's neighbours |
| MineUncover.UncoverNeighbour | MineMouse.cpp:1441-1478 | one neighbour is no longer Normal after its visit, which recursively uncovers it if it was Normal |
| MineMouse.RetagBlockIsRetagged | MineMouse.cpp:1127-1209 | the loop-shaped retagging of the block equals the cell-wise definition Retagged |
| MineMouse.RetaggedOnly | MineMouse.cpp:1127-1209 | retagging changes only tiles of the from status, and only into the to status |
| MineMouse.HoldThenRelease | MineMouse.cpp:561-653 | holding a block and then releasing it restores the tiles exactly |
| MineMouse.ReleasedBlock | MineMouse.cpp:561-653 | after a release no tile of the block is Held |
| MineMouse.RetagAround | MineMouse.cpp:1127-1209 | the loops over the block retag it as Retagged says |
| MineMouse.RetagColumn | MineMouse.cpp:1127-1209 | one column of the loop retags that column's rows |
| MineMouse.CountFlags | MineMouse.cpp:659-726 | the loops count the flags around the cell, the cell included, at most 9 |
| MineMouse.CountFlagColumn | MineMouse.cpp:659-726 | one column of the loop counts that column's flags |
| MineMouse.HoldHandlersOnlyHold | MineMouse.cpp:117-376 | every hold and release handler only moves tiles between Normal and Held |
| MineMouse.ReleaseTileClears | MineMouse.cpp:874-899 | after a left click is released no tile is Held (given the one-held-tile invariant) |
| MineMouse.ReleaseBlockClears | MineMouse.cpp:561-653 | after a double click is released no tile is Held (given the held-within-the-block invariant) |
| MineMouse.StartTileHeld | MineMouse.cpp:1263-1303 | pressing holds at most the one tile under the mouse, and remembers it |
| MineMouse.StartBlockHeld | MineMouse.cpp:1127-1209 | pressing both buttons holds only tiles inside the block under the mouse |
| MineMouse.MoveTileHeld | MineMouse.cpp:390-512 | dragging keeps at most the remembered tile held |
| MineMouse.MoveBlockHeld | MineMouse.cpp:117-376 | dragging both buttons keeps the held tiles within the remembered block |
| MineMouse.MoveTileAndBack | MineMouse.cpp:390-512 | dragging onto a cell and then off the board restores the tiles and forgets the cell |
| MineMouse.MoveBlockAndBack | MineMouse.cpp:117-376 | the same round trip for a double-click drag |
| MineMouse.StartLeftClick | MineMouse.cpp:1248-1329 | the tiles and remembered cell become StartTile of the old ones |
| MineMouse.StartDoubleClick | MineMouse.cpp:1082-1235 | the tiles and remembered cell become StartBlock of the old ones |
| MineMouse.MoveLeftClick | MineMouse.cpp:390-512 | the tiles and remembered cell become MoveTile of the old ones |
| MineMouse.MoveDoubleClick | MineMouse.cpp:117-376 | the tiles and remembered cell become MoveBlock of the old ones |
| MineMouse.ReleasePrevTile | MineMouse.cpp:874-899 | the remembered tile is released and forgotten |
| MineMouse.ReleasePrevBlock | MineMouse.cpp:561-653 | the remembered block is released and forgotten |
| MineMouse.Toggle | MineMouse.cpp:992-1022 | a right click turns Normal into Flag and Flag into Normal, and leaves every other status alone |
| MineMouse.FlagCounter | MineMouse.cpp:992-1022 | the flag counter goes up on flagging and down on unflagging, as a 32-bit unsigned value; other statuses leave it alone |
| MineMouse.ProcessRightDown | MineMouse.cpp:959-1069 | only the clicked tile is toggled, and numFlagged follows FlagCounter |
| MineMouse.ToggleTwice | MineMouse.cpp:992-1022 | two right clicks restore both the tile and the counter |
| MineMouse.FlagCounterTracks | MineMouse.cpp:992-1022 | when numFlagged equals the number of flags, it still does after a right click |
| MineMouse.RightClickTouchesOneTile | MineMouse.cpp:992-1022 | a right click changes no other tile, and none at all on a Revealed or Held tile |
| MineMouse.RelocationKeepsMines | MineMouse.cpp:52-81 | moving the mine off the clicked tile keeps every other mine and the number of mines |
| MineMouse.RelocationFailureLosesMine | MineMouse.cpp:52-84 | when the generator fails, the clicked tile's mine is lost |
| MineMouse.FirstClickBoard | MineMouse.cpp:41-103 | after a successful first click the clicked tile is safe, the mine count is kept and every number is right |
| MineMouse.RelocationValues | MineMouse.cpp:52-81 | relocation keeps every tile a mine or a count |
| MineMouse.FirstClick | MineMouse.cpp:41-103 | the board is relocated and then renumbered; success starts the game at the tick count, and failure leaves it unstarted |
| MineMouse.MoveMineOff | MineMouse.cpp:58-81 | the drawing loop moves the mine to a random safe tile other than the clicked one, or clears it when the generator fails |
| MineMouse.ProcessLeftClick | MineMouse.cpp:845-946 | the held tile is released; on the first click the clicked tile is made safe with every number right; then a Normal tile is uncovered and any other tile is left alone |
| MineMouse.ClickTile | MineMouse.cpp:903-920 | the first-click-then-uncover part of the release |
| MineMouse.StartGame | MineMouse.cpp:907-910 | the first click changes no tile or counter; when it succeeds the tile is safe and the numbers are right |
| MineMouse.UncoverClicked | MineMouse.cpp:913-920 | a Normal tile is uncovered (the UncoverTile contract), and any other tile is left alone |
| MineMouse.ProcessDoubleClick | MineMouse.cpp:526-832 | the held block is released; the chord fires exactly on a Revealed tile whose number equals the flags around it, and then leaves no Normal tile in the block |
| MineMouse.Chord | MineMouse.cpp:659-806 | counting the flags and uncovering around the tile, as Chorded says |
| MineMovement.DirectionsToCheck | MineMovement.cpp:311-334 | aggressiveness picks 2, 4, 6 or 8 directions: 8 from 9 up, and 2 up to 2 |
| MineMovement.DirectionsMonotone | MineMovement.cpp:311-334 | more aggressiveness never checks fewer directions |
| MineMovement.MinesToCheck | MineMovement.cpp:337 | the budget is mines*aggressiveness/10, rounded down, at most the mine count |
| MineMovement.MinesToCheckOnBoard | MineMovement.cpp:337 | the budget never exceeds the mines, and at aggressiveness 10 it is all of them |
| MineMovement.Offset | MineMovement.cpp:428-465 | each direction is a step to one of the eight neighbours |
| MineMovement.OffsetsAreTheNeighbours | MineMovement.cpp:428-465 | the eight directions are exactly the eight neighbours, each once |
| MineMovement.Destination | MineMovement.cpp:428-513 | a destination that exists after wrapping lies on the grid |
| MineMovement.FindMove | MineMovement.cpp:405-540 | a move the scan picks is legal: a Normal (covered, unflagged) mine moved, in one of the tried directions, to an adjacent Normal tile without a mine |
| MineMovement.TryDirectionsSound | MineMovement.cpp:426-530 | the direction loop finds a move only if one is there, and "none found" means none of the remaining directions works |
| MineMovement.VisitTileSound | MineMovement.cpp:410-530 | a tile that yields no move cannot move in any of the checked directions |
| MineMovement.ScanRowsSound | MineMovement.cpp:407-534 | rows scanned without a move hold no movable mine |
| MineMovement.ScanColsSound | MineMovement.cpp:405-539 | columns scanned without a move hold no movable mine |
| MineMovement.FindMoveSound | MineMovement.cpp:405-540 | a whole scan without a move or a spent budget means no mine on the board can move |
| MineMovement.MovedBoard | MineMovement.cpp:544-545 | the mine is taken off the source and put on the destination |
| MineMovement.AfterMove | MineMovement.cpp:542-583 | the board after the move and the recount has the same length |
| MineMovement.OutsideRectUnaffected | MineMovement.cpp:548-572 | a cell outside the recount rectangle has neither end of the move among its neighbours |
| MineMovement.RecountHoldsEnds | MineMovement.cpp:548-572 | the recount rectangle contains both ends of the move |
| MineMovement.RecountCovers | MineMovement.cpp:548-572 | every cell that has either end of the move as a neighbour lies in the recount rectangle |
| MineMovement.MoveKeepsMines | MineMovement.cpp:542-572 | moving keeps every mine except the moved one, which lands on the destination |
| MineMovement.OutsideCellConsistent | MineMovement.cpp:569-572 | a right number outside the recount rectangle stays right |
| MineMovement.InsideCellConsistent | MineMovement.cpp:569-572 | every number inside the recount rectangle is right |
| MineMovement.MoveKeepsNumbersConsistent | MineMovement.cpp:542-583 | if every number was right before the move, every number is right after it |
| MineMovement.MoveValues | MineMovement.cpp:542-572 | after the move every tile is a mine or a count |
| MineMovement.FoundMoveKeepsBoard | MineMovement.cpp:405-583 | a found move keeps the mine count and the board values |
| MineMovement.DrawOrders | MineMovement.cpp:379-398 | the x, y and direction orders have the board's width, height and 8 entries |
| MineMovement.OrdersArePermutations | MineMovement.cpp:363-398 | each order is a permutation of 0..n-1 |
| MineMovement.OrdersMakeValidScan | MineMovement.cpp:363-398 | the drawn orders make a well-formed scan of the board |
| MineMovement.MovementScan | MineMovement.cpp:311-398 | the scan the routine sets up is well formed |
| MineRandom.IdentityArray | MineMovement.cpp:363-376 | the fill loop produces 0..n-1, as do the loops at Mine.cpp:2929-2932 |
| MineMovement.MakeOrders | MineMovement.cpp:339-398 | the three arrays and the remaining samples are the DrawOrders result |
| MineMovement.TryMoves | MineMovement.cpp:426-530 | the direction loop's outcome (move, budget spent, or keep searching) is TryDirections |
| MineMovement.ScanColumn | MineMovement.cpp:407-535 | the row loop's outcome is ScanRows |
| MineMovement.ScanBoard | MineMovement.cpp:405-539 | the nested loops find a move exactly when FindMove does, and the same one |
| MineMovement.ApplyMove | MineMovement.cpp:542-583 | moving the mine and recounting leaves AfterMove of the old board |
| MineMovement.SearchAndMove | MineMovement.cpp:405-583 | the outcome is FindMove; a move changes the board to AfterMove, and no move leaves it alone; either way the mine count is kept, and so are right numbers |
| MineMovement.ProcessMovement | MineMovement.cpp:278-623 | the orders are drawn; on success the outcome is FindMove of that scan, and a move keeps the mine count and keeps right numbers right; failure moves nothing |
| MineWindow.StepForward | Mine.cpp:3772-3792 | a shift stepped forward stays in range and wraps from the last row or column to the first |
| MineWindow.StepBack | Mine.cpp:3793-3810 | a shift stepped back stays in range and wraps from the first row or column to the last |
| MineWindow.Scroll | Mine.cpp:3763-3849 | scrolling keeps the board size and wrap settings, and keeps a remembered cell on the board (and absent when it was absent) |
| MineWindow.OppositeSteps | Mine.cpp:3772-3810 | stepping the shift one way and the remembered cell the other way keeps their sum mod dim |
| MineWindow.ScrollKeepsStorage | Mine.cpp:3772-3845 | a remembered cell still names the same storage index after scrolling |
| MineWindow.ScrollInverse | Mine.cpp:3772-3845 | down then up, up then down, right then left, and left then right each restore the layout and the remembered cell |
| MineWindow.KeyDown | Mine.cpp:3763-3856 | an arrow key applies Scroll to the shifts and the remembered cell, and asks for a mouse move to the old remembered cell when there is one |
| MineWindow.RouteAsWrittenChordsAfterGameOver | Mine.cpp:4032-4046 | as written, releasing the right button off the board after a loss, with the left still down, starts a chord |
| MineWindow.Route | Mine.cpp:3859-4057 | a handler acts on a tile only while the game is on and the cursor is on a tile; drags need the left button; releases need it too |
| MineWindow.RouteAfterGameOver | Mine.cpp:3859-4057 | once the game is over only a new game can start |
| MineWindow.RouteDiffersOnlyOnGatedRelease | Mine.cpp:4032-4046 | the corrected routing differs from the code exactly on a right release, with the left button down, off the board or after the game ended |
| MineWindow.MouseInput | Mine.cpp:3859-4057 | the corrected routing of the Findings row: the handler chosen and the new button flags are those of Route, not of RouteAsWritten, which models the code as written |
| MineWindow.OnTimer | Mine.cpp:4060-4079 | while a game runs, the clock timer refreshes the time until it reaches 999 and the movement timer runs ProcessMovement; both keep the mine count and keep right numbers right, and nothing happens otherwise |

## Left out

- Painting is not modelled: the GDI calls (BitBlt, InvalidateRect, ScrollWindowEx, the device contexts and bitmaps), and the error statuses those calls return. The handlers return only the game errors. The mines shown as flags after a win (Mine.cpp:1172) are drawing only: no tile status changes.
- The pixel-to-grid conversion of mouse coordinates is not modelled. The handlers take grid cells, an `Option` for "off the board", or a `Spot`.
- Dialogs and persistence are not modelled: the movement dialog (`MineMovement_Dialog`, MineMovement.cpp:43-268), the custom board, new best time and best times dialogs, and the registry.
- `Mine_Random` is modelled on its RDRAND path (Mine.cpp:1677-1729), with the processor's reads as a stream of raw samples. Within one call every failed read is counted, an out-of-range read is read again without being counted, and the tenth failed read ends the call with the random-number error. The stream stands for the reads one run makes, so a real run corresponds to a stream long enough not to run dry. Running out of samples also ends the call with the random-number error and output 0; the source has no such path, and every failure case of `RandomDraw`, `Shuffle`, `RandomPerm`, `FirstClick`, `SetupGame` and `ProcessMovement` includes it.
- The CPUID probe for RDRAND is not modelled: RDRAND is taken to be present.
- The CryptGenRandom path (Mine.cpp:1731-1754) is not modelled. There a single failed read ends the draw with the random-number error, and when the first read fails the call still writes `rand % limit` to the output.
- The `MINE_ERROR_CRYPT` status of a failed `CryptAcquireContextW` (Mine.cpp:1643-1648) is not modelled.
- `GetTickCount64` is the `now` parameter.
- Allocation failures are not modelled: the heap and memory error codes of `Mine_SetupGame` and of `MineMovement_ProcessMovement`. Allocation always succeeds.
- The `HeapFree` checks at the end of `MineMovement_ProcessMovement` are not modelled (MineMovement.cpp:605 and 614). They test the result the wrong way round, but they only write debug output.
- The window procedure's handler dispatch is modelled as `MineWindow.Route` and `MineWindow.MouseInput`, which name the handler to run. Both follow the corrected right-button release of the Findings row; `MineWindow.RouteAsWritten` is the code as written. They are not composed with the `MineMouse` methods into one method.
- The re-entrancy counters (`functionEntryCount`) and every debug output are not modelled.
- The `WM_MOUSEMOVE` that `KeyDown` sends is modelled as its `moveTo` result.
- The number images and the face images are not modelled beyond the random glyph draw of `Mine_SetupNumberImageData` that `Mine_SetupGame` makes (`Mine.SetupNumberImages`): loading the bitmaps and its `MINE_ERROR_BITMAP` status are drawing only. The calls of `Mine_SetupNumberImageData` at start-up and on a change of the number-image menu (Mine.cpp:2883, 3518) are not modelled.
- MineMovement.ProcessMovement: the y order is shuffled once, before the scan, and is not reshuffled for each column; this follows the code (MineMovement.cpp:379-398).
- MineUncover.UncoverTile: the cascade is stated by its effect on the statuses and counters and by ZerosCleared: no Normal tile is left around the clicked tile or around any zero the cascade reveals. The contract does not say that every revealed tile is reachable from the clicked one.
- Mine.NewRandomBoard: the contract gives the exact mine count only for a success on an empty board, which is the only way `Mine_SetupGame` calls it. The distribution of the placement is not stated.

## Findings

| source | as written | input that shows it | evidently intended | confidence | as-written member | corrected member |
|---|---|---|---|---|---|---|
| Mine.cpp:4032-4046 | releasing the right button runs `MineMouse_ProcessDoubleClick` whenever the left button is down, with no game-over check and no board-region check | after a loss, press the left button (leftDown is set even when the game is over), press the right, release the right off the board: a chord runs, and an off-board release also has no valid cell | chord only while the game is on and the cursor is on a tile, as the left-button release does | not executed | MineWindow.RouteAsWrittenChordsAfterGameOver | MineWindow.Route |
