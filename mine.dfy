/**
 * The board and game operations of Mine.cpp: numbering the board, laying
 * out a new random board, setting up a game, the clock, winning, and the
 * rectangle tests used to route mouse positions.
 */
module Mine {
  import opened MineDefs
  import opened BoardSpec
  import opened MineRandom

  // ---------------------------------------------------------------
  // Mine_AssignNumbers
  // ---------------------------------------------------------------

  /** The mine count around (x, y): the inner loops of Mine_AssignNumbers. */
  method CountNeighbourMines(board: array<int>, l: Layout, x: int, y: int) returns (mines: int)
    requires l.Valid() && board.Length == l.Size() && l.InGrid(x, y)
    ensures mines == NeighbourMines(l, board[..], x, y)
    ensures 0 <= mines <= 8
  {
    ghost var m := BombMask(board[..]);
    ghost var total := BlockCount(l, m, x, y, true);
    BlockCountBound(l, m, x, y, true);
    mines := 0;
    for ix := -1 to 2
      invariant mines + ColsFrom(l, m, x, y, ix, true) == total
    {
      var column := CountColumn(board, l, x, y, ix);
      mines := mines + column;
    }
  }

  /** One pass of the column loop of Mine_AssignNumbers: wrap or skip column x+ix, then count its mines. */
  method CountColumn(board: array<int>, l: Layout, x: int, y: int, ix: int) returns (mines: int)
    requires l.Valid() && board.Length == l.Size() && l.InGrid(x, y)
    ensures mines == RowsFrom(l, BombMask(board[..]), x, y, ix, -1, true)
  {
    var xPos := x + ix;
    if xPos < 0 {
      if l.wrapHorz {
        xPos := l.width - 1;
      } else {
        RowsFromSkipped(l, BombMask(board[..]), x, y, ix, -1, true);
        return 0;
      }
    } else if xPos > l.width - 1 {
      if l.wrapHorz {
        xPos := 0;
      } else {
        RowsFromSkipped(l, BombMask(board[..]), x, y, ix, -1, true);
        return 0;
      }
    }
    mines := CountRows(board, l, x, y, ix, xPos);
  }

  /** The row loop of Mine_AssignNumbers: the mines in column x+ix (wrapped to xPos) around row y. */
  method CountRows(board: array<int>, l: Layout, x: int, y: int, ix: int, xPos: int) returns (mines: int)
    requires l.Valid() && board.Length == l.Size() && l.InGrid(x, y)
    requires Wrap(x + ix, l.width, l.wrapHorz) == Some(xPos)
    ensures mines == RowsFrom(l, BombMask(board[..]), x, y, ix, -1, true)
  {
    ghost var m := BombMask(board[..]);
    mines := 0;
    for jx := -1 to 2
      invariant mines + RowsFrom(l, m, x, y, ix, jx, true) == RowsFrom(l, m, x, y, ix, -1, true)
    {
      if ix == 0 && jx == 0 {
        CellMarkSkipped(l, m, x, y, ix, jx, true);
        continue;
      }
      var yPos := y + jx;
      if yPos < 0 {
        if l.wrapVert {
          yPos := l.height - 1;
        } else {
          CellMarkSkipped(l, m, x, y, ix, jx, true);
          continue;
        }
      } else if yPos > l.height - 1 {
        if l.wrapVert {
          yPos := 0;
        } else {
          CellMarkSkipped(l, m, x, y, ix, jx, true);
          continue;
        }
      }
      CellMarkAt(l, m, x, y, ix, jx, true, xPos, yPos);
      if board[l.Index(xPos, yPos)] == BOMB {
        mines := mines + 1;
      }
    }
  }

  /** The rectangle Mine_AssignNumbers works on after clamping each bound to the board. */
  function ClampedRect(l: Layout, xGridMin: int, xGridMax: int, yGridMin: int, yGridMax: int): (r: (int, int, int, int))
    requires l.Valid()
    ensures 0 <= r.0 < l.width && 0 <= r.1 < l.width && 0 <= r.2 < l.height && 0 <= r.3 < l.height
  {
    (ClampToGrid(xGridMin, l.width), ClampToGrid(xGridMax, l.width),
     ClampToGrid(yGridMin, l.height), ClampToGrid(yGridMax, l.height))
  }

  /**
   * Mine_AssignNumbers: give every safe cell of the (clamped) rectangle its
   * neighbour count. A rectangle whose clamped minimum exceeds its maximum
   * is a parameter error and nothing is written.
   */
  method AssignNumbers(g: GameData, menu: MenuSettings, xGridMin: int, xGridMax: int, yGridMin: int, yGridMax: int)
    returns (status: MineError)
    requires g.Valid()
    modifies g.gameBoard
    ensures g.Valid()
    ensures var r := ClampedRect(g.Lay(menu), xGridMin, xGridMax, yGridMin, yGridMax);
      if r.0 > r.1 || r.2 > r.3 then status == ErrParameter && g.gameBoard[..] == old(g.gameBoard[..])
      else status == Success && g.gameBoard[..] == Renumber(g.Lay(menu), old(g.gameBoard[..]), r.0, r.1, r.2, r.3)
  {
    var l := g.Lay(menu);
    var rect := ClampedRect(l, xGridMin, xGridMax, yGridMin, yGridMax);
    var xlo, xhi, ylo, yhi := rect.0, rect.1, rect.2, rect.3;
    if xlo > xhi || ylo > yhi {
      return ErrParameter;
    }
    ghost var b0 := g.gameBoard[..];
    RenumberRect(g.gameBoard, l, xlo, xhi, ylo, yhi);
    RenumberValues(l, b0, xlo, xhi, ylo, yhi);
    return Success;
  }

  /** The two loops of Mine_AssignNumbers over a non-empty, in-grid rectangle. */
  method RenumberRect(board: array<int>, l: Layout, xlo: int, xhi: int, ylo: int, yhi: int)
    requires l.Valid() && board.Length == l.Size()
    requires 0 <= xlo <= xhi < l.width && 0 <= ylo <= yhi < l.height
    modifies board
    ensures board[..] == Renumber(l, old(board[..]), xlo, xhi, ylo, yhi)
  {
    ghost var b0 := board[..];
    SoFarStart(l, b0, xlo, ylo, yhi);
    for xb := xlo to xhi + 1
      invariant board[..] == SoFar(l, b0, xlo, ylo, yhi, xb, ylo)
    {
      for yb := ylo to yhi + 1
        invariant board[..] == SoFar(l, b0, xlo, ylo, yhi, xb, yb)
      {
        var idx := l.Index(xb, yb);
        SoFarStep(l, b0, xlo, ylo, yhi, xb, yb);
        if board[idx] == BOMB {
          continue;
        }
        var mines := CountNeighbourMines(board, l, xb, yb);
        board[idx] := mines;
      }
      SoFarNextColumn(l, b0, xlo, ylo, yhi, xb);
    }
    SoFarEnd(l, b0, xlo, xhi, ylo, yhi);
  }

  /** The cells Mine_AssignNumbers has visited once its loops reach (xb, yb): whole columns xlo..xb-1, then rows ylo..yb-1 of column xb. */
  predicate Visited(x: int, y: int, xlo: int, ylo: int, yhi: int, xb: int, yb: int) {
    InRect(x, y, xlo, xb - 1, ylo, yhi) || InRect(x, y, xb, xb, ylo, yb - 1)
  }

  /** The board while Mine_AssignNumbers runs: visited safe cells renumbered, the rest as they were. */
  ghost function SoFar(l: Layout, b0: seq<int>, xlo: int, ylo: int, yhi: int, xb: int, yb: int): (r: seq<int>)
    requires l.Valid() && |b0| == l.Size()
    ensures |r| == |b0| && BombMask(r) == BombMask(b0)
  {
    seq(|b0|, i requires 0 <= i < |b0| =>
      var c := l.CellOf(i);
      if b0[i] != BOMB && Visited(c.0, c.1, xlo, ylo, yhi, xb, yb) then NeighbourMines(l, b0, c.0, c.1) else b0[i])
  }

  lemma SoFarStart(l: Layout, b0: seq<int>, xlo: int, ylo: int, yhi: int)
    requires l.Valid() && |b0| == l.Size()
    ensures SoFar(l, b0, xlo, ylo, yhi, xlo, ylo) == b0
  {
  }

  /** One step of the inner loop: the cell (xb, yb) is renumbered, a mine stays, and nothing else changes. */
  lemma SoFarStep(l: Layout, b0: seq<int>, xlo: int, ylo: int, yhi: int, xb: int, yb: int)
    requires l.Valid() && |b0| == l.Size() && l.InGrid(xb, yb) && xlo <= xb && ylo <= yb
    ensures var cur, idx := SoFar(l, b0, xlo, ylo, yhi, xb, yb), l.Index(xb, yb);
      && (cur[idx] == BOMB <==> b0[idx] == BOMB)
      && (b0[idx] == BOMB ==> SoFar(l, b0, xlo, ylo, yhi, xb, yb + 1) == cur)
      && (b0[idx] != BOMB ==> SoFar(l, b0, xlo, ylo, yhi, xb, yb + 1) == cur[idx := NeighbourMines(l, cur, xb, yb)])
  {
    var cur, idx := SoFar(l, b0, xlo, ylo, yhi, xb, yb), l.Index(xb, yb);
    var next := SoFar(l, b0, xlo, ylo, yhi, xb, yb + 1);
    l.CellOfIndex(xb, yb);
    forall i | 0 <= i < |b0| && i != idx
      ensures next[i] == cur[i]
    {
      var c := l.CellOf(i);
      l.IndexCellOf(i);
      assert c != (xb, yb);
      assert Visited(c.0, c.1, xlo, ylo, yhi, xb, yb + 1) == Visited(c.0, c.1, xlo, ylo, yhi, xb, yb);
    }
    if b0[idx] == BOMB {
      assert next == cur;
    } else {
      assert NeighbourMines(l, cur, xb, yb) == NeighbourMines(l, b0, xb, yb);
      assert next[idx] == NeighbourMines(l, b0, xb, yb);
      assert next == cur[idx := NeighbourMines(l, cur, xb, yb)];
    }
  }

  /** A finished column: the next column starts where this one ended. */
  lemma SoFarNextColumn(l: Layout, b0: seq<int>, xlo: int, ylo: int, yhi: int, xb: int)
    requires l.Valid() && |b0| == l.Size() && xlo <= xb
    ensures SoFar(l, b0, xlo, ylo, yhi, xb, yhi + 1) == SoFar(l, b0, xlo, ylo, yhi, xb + 1, ylo)
  {
  }

  /** When every column is done the board is the renumbered rectangle. */
  lemma SoFarEnd(l: Layout, b0: seq<int>, xlo: int, xhi: int, ylo: int, yhi: int)
    requires l.Valid() && |b0| == l.Size()
    ensures SoFar(l, b0, xlo, ylo, yhi, xhi + 1, ylo) == Renumber(l, b0, xlo, xhi, ylo, yhi)
  {
  }

  // ---------------------------------------------------------------
  // Mine_NewRandomBoard
  // ---------------------------------------------------------------

  function Min(a: int, b: int): int {
    if a < b then a else b
  }

  /**
   * Mine_NewRandomBoard: walk the tiles in storage order and place a mine on
   * each with probability (mines left)/(tiles left). Only mine values are
   * written; on a board without mines this places exactly
   * min(mines, width*height) of them.
   */
  method NewRandomBoard(board: array<int>, mines: int, rng: RandomSource) returns (status: MineError)
    requires board.Length <= UINT_MAX && 0 <= mines
    modifies board, rng
    ensures forall i :: 0 <= i < board.Length ==> board[i] == old(board[i]) || board[i] == BOMB
    ensures status == Success || status == ErrRandNumber
    ensures status == Success && BombCount(old(board[..])) == 0 ==>
      BombCount(board[..]) == Min(mines, board.Length)
  {
    var n := board.Length;
    ghost var b0 := board[..];
    var minesRemaining := mines;
    var tilesRemaining := n;
    var ix := 0;
    status := Success;
    while minesRemaining > 0 && tilesRemaining > 0
      invariant 0 <= ix <= n && tilesRemaining == n - ix && 0 <= minesRemaining <= mines
      invariant forall i :: 0 <= i < n ==> board[i] == b0[i] || (i < ix && board[i] == BOMB)
      invariant BombCount(b0) == 0 ==>
        BombCount(board[..]) + Min(minesRemaining, tilesRemaining) == Min(mines, n)
      invariant status == Success
      decreases tilesRemaining
    {
      var rand;
      status, rand := rng.Random(tilesRemaining);
      if status != Success {
        return;
      }
      if rand < minesRemaining {
        if BombCount(b0) == 0 {
          NoBombAt(b0, ix);
          CountUpdate(BombMask(board[..]), ix, true);
          assert BombMask(board[..][ix := BOMB]) == BombMask(board[..])[ix := true];
          assert !BombMask(board[..])[ix];
        }
        board[ix] := BOMB;
        minesRemaining := minesRemaining - 1;
      }
      tilesRemaining := tilesRemaining - 1;
      ix := ix + 1;
    }
  }

  /** A board with no mines has no mine at any index. */
  lemma NoBombAt(b: seq<int>, i: int)
    requires BombCount(b) == 0 && 0 <= i < |b|
    ensures b[i] != BOMB
  {
    if b[i] == BOMB {
      CountUpdate(BombMask(b), i, false);
    }
  }

  // ---------------------------------------------------------------
  // The clock and winning
  // ---------------------------------------------------------------

  /**
   * The seconds shown after a game started at tick start, read at tick now:
   * the 64-bit unsigned difference in whole seconds, capped at MAX_TIME.
   */
  function ElapsedSeconds(start: int, now: int): (t: int)
    requires 0 <= start < ULONGLONG_RANGE && 0 <= now < ULONGLONG_RANGE
    ensures 0 <= t <= MAX_TIME
    ensures start <= now ==> t == Min((now - start) / SECOND, MAX_TIME)
  {
    var d := ((now - start) % ULONGLONG_RANGE) / SECOND;
    if d > MAX_TIME then MAX_TIME else d
  }

  /** The clock never runs backwards while the tick counter moves forwards. */
  lemma ElapsedMonotone(start: int, now1: int, now2: int)
    requires 0 <= start <= now1 <= now2 < ULONGLONG_RANGE
    ensures ElapsedSeconds(start, now1) <= ElapsedSeconds(start, now2)
  {
    DivMonotone(now1 - start, now2 - start, SECOND);
  }

  lemma DivMonotone(a: int, b: int, d: int)
    requires 0 <= a <= b && 0 < d
    ensures a / d <= b / d
  {
    if a / d > b / d {
      MulMono(b / d + 1, a / d, d);
    }
  }

  /** A tick reading earlier than the start (the 64-bit counter wrapped) shows the maximum time. */
  lemma ElapsedBeforeStart(start: int, now: int)
    requires 0 <= now < start < ULONGLONG_RANGE
    requires start - now <= ULONGLONG_RANGE - (MAX_TIME + 1) * SECOND
    ensures ElapsedSeconds(start, now) == MAX_TIME
  {
    var diff := now - start + ULONGLONG_RANGE;
    assert (now - start) % ULONGLONG_RANGE == diff;
    DivMonotone((MAX_TIME + 1) * SECOND, diff, SECOND);
  }

  /** Mine_ProcessTimer: update the shown time from the tick counter. */
  method ProcessTimer(g: GameData, now: int)
    requires 0 <= g.gameStartTime < ULONGLONG_RANGE && 0 <= now < ULONGLONG_RANGE
    modifies g`time
    ensures g.time == ElapsedSeconds(g.gameStartTime, now)
  {
    var currentTime := ((now - g.gameStartTime) % ULONGLONG_RANGE) / SECOND;
    if currentTime > MAX_TIME {
      currentTime := MAX_TIME;
    }
    if g.time != currentTime {
      g.time := currentTime;
    }
  }

  /** The best time recorded for a standard level. */
  function BestTime(menu: MenuSettings, level: int): int {
    if level == LEVEL_BEGINNER then menu.beginnerTime
    else if level == LEVEL_INTERMEDIATE then menu.intermediateTime
    else menu.expertTime
  }

  /** Whether a win in time seconds beats the record of the current level. */
  function IsNewRecord(menu: MenuSettings, time: int): (r: bool)
    ensures r <==> StandardLevel(menu.gameLevel).Some? && time < BestTime(menu, menu.gameLevel)
  {
    (menu.gameLevel == LEVEL_BEGINNER && time < menu.beginnerTime) ||
    (menu.gameLevel == LEVEL_INTERMEDIATE && time < menu.intermediateTime) ||
    (menu.gameLevel == LEVEL_EXPERT && time < menu.expertTime)
  }

  /** A custom board never sets a record, and a slower win never beats a faster one. */
  lemma RecordMonotone(menu: MenuSettings, t1: int, t2: int)
    requires t1 <= t2
    ensures menu.gameLevel == LEVEL_CUSTOM ==> !IsNewRecord(menu, t2)
    ensures IsNewRecord(menu, t2) ==> IsNewRecord(menu, t1)
  {
  }

  /**
   * Mine_GameWon: stop the clock, show every mine as flagged and end the
   * game as won. The result says whether the new-record dialogs open.
   */
  method GameWon(g: GameData, menu: MenuSettings, now: int) returns (newRecord: bool)
    requires 0 <= g.gameStartTime < ULONGLONG_RANGE && 0 <= now < ULONGLONG_RANGE
    modifies g`time, g`numFlagged, g`gameOver, g`gameWon
    ensures g.time == ElapsedSeconds(g.gameStartTime, now)
    ensures g.numFlagged == g.mines && g.gameOver && g.gameWon
    ensures newRecord == IsNewRecord(menu, g.time)
  {
    ProcessTimer(g, now);
    g.numFlagged := g.mines;
    g.gameOver := true;
    g.gameWon := true;
    newRecord := IsNewRecord(menu, g.time);
  }

  // ---------------------------------------------------------------
  // Mine_SetupGame
  // ---------------------------------------------------------------

  /** The height, width and mine count of the board for the current level. */
  function BoardSize(menu: MenuSettings): (s: LevelSize)
    requires menu.Valid()
    ensures 0 < s.height <= MAX_HEIGHT && 0 < s.width <= MAX_WIDTH
    ensures 0 < s.mines < s.height * s.width <= MAX_HEIGHT * MAX_WIDTH
    ensures StandardLevel(menu.gameLevel).Some? ==> s == StandardLevel(menu.gameLevel).value
    ensures menu.gameLevel == LEVEL_CUSTOM ==> s == LevelSize(menu.customHeight, menu.customWidth, menu.customMines)
  {
    match StandardLevel(menu.gameLevel)
    case Some(s) => s
    case None =>
      CustomHasFreeTile(menu.customHeight, menu.customWidth);
      MulMono(menu.customHeight, MAX_HEIGHT, menu.customWidth);
      MulMono(menu.customWidth, MAX_WIDTH, MAX_HEIGHT);
      LevelSize(menu.customHeight, menu.customWidth, menu.customMines)
  }

  lemma CustomHasFreeTile(h: int, w: int)
    requires 1 <= h && 1 <= w
    ensures (h - 1) * (w - 1) < h * w
  {
    assert h * w == (h - 1) * (w - 1) + h + w - 1;
  }

  /**
   * Mine_SetupGame: size the board for the level, start from an all-Normal
   * board without mines, reset the counters and place the mines; with random
   * number images, then draw the glyphs. When placing the mines or drawing
   * the glyphs fails both arrays are released (modelled as empty arrays).
   */
  method SetupGame(g: GameData, menu: MenuSettings, rng: RandomSource) returns (status: MineError)
    requires menu.Valid() && 0 <= g.gameStartTime < ULONGLONG_RANGE
    modifies g, rng
    ensures var s := BoardSize(menu); g.height == s.height && g.width == s.width && g.mines == s.mines
    ensures !g.gameStarted && !g.gameOver && !g.gameWon
    ensures g.numFlagged == 0 && g.numUncovered == 0
    ensures g.time == 0 && !g.leftDown && !g.rightDown
    ensures g.prevGridX == -1 && g.prevGridY == -1 && g.horzShift == 0 && g.vertShift == 0
    ensures status == Success || status == ErrRandNumber
    ensures status == Success ==>
      && fresh(g.gameBoard) && fresh(g.tileStatus) && g.Valid()
      && (forall i :: 0 <= i < g.tileStatus.Length ==> g.tileStatus[i] == Normal)
      && (forall i :: 0 <= i < g.gameBoard.Length ==> g.gameBoard[i] == 0 || g.gameBoard[i] == BOMB)
      && BombCount(g.gameBoard[..]) == g.mines
    ensures status != Success ==> g.gameBoard.Length == 0 && g.tileStatus.Length == 0
  {
    var s := BoardSize(menu);
    var board, tiles := ZeroedBoard(s.height * s.width);
    status := NewRandomBoard(board, s.mines, rng);
    if status == Success && menu.numberImages == NUMBER_IMAGE_RANDOM {
      var glyphs;
      status, glyphs := SetupNumberImages(rng);
    }
    if status != Success {
      board, tiles := new int[0], new TileStatus[0];
    }
    ResetGameData(g, s, board, tiles);
  }

  /**
   * The random part of Mine_SetupNumberImageData: the glyphs 0..15 in order,
   * then a partial shuffle of the first eight places. The numbers 1..8 are
   * drawn with the glyphs order[0..8], which are eight different glyphs.
   */
  method SetupNumberImages(rng: RandomSource) returns (status: MineError, order: array<int>)
    modifies rng
    ensures fresh(order)
    ensures var r := Shuffle(old(rng.samples), Identity(NUM_RANDOM_TILES), 0, 8);
      status == r.0 && order[..] == r.1 && rng.samples == r.2
    ensures status == Success || status == ErrRandNumber
    ensures multiset(order[..]) == multiset(Identity(NUM_RANDOM_TILES))
    ensures forall i :: 0 <= i < order.Length ==> 0 <= order[i] < NUM_RANDOM_TILES
    ensures forall i, j :: 0 <= i < j < order.Length ==> order[i] != order[j]
  {
    order := IdentityArray(NUM_RANDOM_TILES);
    status := RandomPerm(rng, order, 8);
    ShufflePermutes(old(rng.samples), Identity(NUM_RANDOM_TILES), 0, 8);
    PermutationOfIdentity(order[..], NUM_RANDOM_TILES);
    PermutationDistinct(order[..], NUM_RANDOM_TILES);
  }

  /** The field assignments of Mine_SetupGame: a fresh, unstarted game on the given board. */
  method ResetGameData(g: GameData, s: LevelSize, board: array<int>, tiles: array<TileStatus>)
    modifies g
    ensures g.height == s.height && g.width == s.width && g.mines == s.mines
    ensures g.gameBoard == board && g.tileStatus == tiles
    ensures !g.gameStarted && !g.gameOver && !g.gameWon
    ensures g.numFlagged == 0 && g.numUncovered == 0 && g.time == 0 && !g.leftDown && !g.rightDown
    ensures g.prevGridX == -1 && g.prevGridY == -1 && g.horzShift == 0 && g.vertShift == 0
    ensures g.gameStartTime == old(g.gameStartTime)
  {
    ResetPlay(g);
    ResetBoard(g, s, board, tiles);
  }

  /** The game is not started, over or won; nothing is flagged, uncovered or held; the clock shows 0. */
  method ResetPlay(g: GameData)
    modifies g`gameStarted, g`gameOver, g`gameWon, g`numFlagged, g`numUncovered, g`time, g`leftDown, g`rightDown
    ensures !g.gameStarted && !g.gameOver && !g.gameWon
    ensures g.numFlagged == 0 && g.numUncovered == 0 && g.time == 0 && !g.leftDown && !g.rightDown
  {
    g.gameStarted, g.gameOver, g.gameWon := false, false, false;
    g.numFlagged, g.numUncovered := 0, 0;
    g.time := 0;
    g.leftDown, g.rightDown := false, false;
  }

  /** The board of the new game, no tile pressed and no scroll. */
  method ResetBoard(g: GameData, s: LevelSize, board: array<int>, tiles: array<TileStatus>)
    modifies g`height, g`width, g`mines, g`gameBoard, g`tileStatus, g`prevGridX, g`prevGridY, g`horzShift, g`vertShift
    ensures g.height == s.height && g.width == s.width && g.mines == s.mines
    ensures g.gameBoard == board && g.tileStatus == tiles
    ensures g.prevGridX == -1 && g.prevGridY == -1 && g.horzShift == 0 && g.vertShift == 0
  {
    g.height, g.width, g.mines := s.height, s.width, s.mines;
    g.gameBoard, g.tileStatus := board, tiles;
    g.prevGridX, g.prevGridY := -1, -1;
    g.horzShift, g.vertShift := 0, 0;
  }

  /** The two zero-filled allocations of Mine_SetupGame: no mines, every tile Normal. */
  method ZeroedBoard(n: nat) returns (board: array<int>, tiles: array<TileStatus>)
    ensures fresh(board) && fresh(tiles) && board.Length == n && tiles.Length == n
    ensures forall i :: 0 <= i < n ==> board[i] == 0 && tiles[i] == Normal
    ensures BombCount(board[..]) == 0
  {
    board := new int[n](_ => 0);
    tiles := new TileStatus[n](_ => Normal);
    assert BombMask(board[..]) == seq(n, _ => false);
    AllFalseCount(n);
  }

  lemma {:induction false} AllFalseCount(n: nat)
    ensures Count(seq(n, _ => false)) == 0
  {
    if n > 0 {
      assert seq(n, _ => false)[..n - 1] == seq(n - 1, _ => false);
      AllFalseCount(n - 1);
    }
  }

  // ---------------------------------------------------------------
  // Rectangles
  // ---------------------------------------------------------------

  /** A screen rectangle; right and bottom are exclusive. */
  datatype Rect = Rect(left: int, top: int, right: int, bottom: int)

  /** Mine_PointInRect: the point lies in the half-open rectangle. */
  function PointInRect(x: int, y: int, r: Rect): (b: bool)
    ensures b <==> r.left <= x < r.right && r.top <= y < r.bottom
  {
    !(x < r.left || x >= r.right) && !(y < r.top || y >= r.bottom)
  }

  /** Mine_IsRectSubset: rect lies within boundary. */
  function IsRectSubset(boundary: Rect, rect: Rect): bool {
    boundary.left <= rect.left && boundary.top <= rect.top && boundary.bottom >= rect.bottom && boundary.right >= rect.right
  }

  /** A rectangle is a subset of a boundary exactly when every point of it lies in the boundary (for a non-empty rectangle). */
  lemma SubsetMeansPointsInside(boundary: Rect, rect: Rect)
    requires rect.left < rect.right && rect.top < rect.bottom
    ensures IsRectSubset(boundary, rect) <==>
      forall x, y :: PointInRect(x, y, rect) ==> PointInRect(x, y, boundary)
  {
    if !IsRectSubset(boundary, rect) {
      if boundary.left > rect.left {
        assert PointInRect(rect.left, rect.top, rect) && !PointInRect(rect.left, rect.top, boundary);
      } else if boundary.top > rect.top {
        assert PointInRect(rect.left, rect.top, rect) && !PointInRect(rect.left, rect.top, boundary);
      } else if boundary.bottom < rect.bottom {
        assert PointInRect(rect.left, rect.bottom - 1, rect) && !PointInRect(rect.left, rect.bottom - 1, boundary);
      } else {
        assert PointInRect(rect.right - 1, rect.top, rect) && !PointInRect(rect.right - 1, rect.top, boundary);
      }
    }
  }
}
