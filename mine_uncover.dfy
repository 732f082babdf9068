/**
 * MineMouse_UncoverTile of MineMouse.cpp: revealing a tile, the recursive
 * flood fill around a tile with no neighbouring mine, and the win check;
 * the neighbour loop is shared with the double-click chord.
 */
module MineUncover {
  import opened MineDefs
  import opened BoardSpec
  import opened Mine
  import opened MineRandom

  // ---------------------------------------------------------------
  // What uncovering may do to the game
  // ---------------------------------------------------------------

  /** Each tile either keeps its status or goes from Normal to Revealed. */
  ghost predicate StatusGrew(s0: seq<TileStatus>, s1: seq<TileStatus>) {
    |s0| == |s1| && forall i :: 0 <= i < |s0| ==> s1[i] == s0[i] || (s0[i] == Normal && s1[i] == Revealed)
  }

  lemma GrewNormalCount(s0: seq<TileStatus>, s1: seq<TileStatus>)
    requires StatusGrew(s0, s1)
    ensures NormalCount(s1) <= NormalCount(s0)
  {
    CountMonotone(StatusMask(s1, Normal), StatusMask(s0, Normal));
  }

  /** The part of the game data that uncovering changes. */
  datatype Play = Play(status: seq<TileStatus>, uncovered: int, over: bool, won: bool, flagged: int, time: int)

  /** The part of the game data that uncovering reads but never changes, with the tick count of the click. */
  datatype Run = Run(lay: Layout, board: seq<int>, safe: int, mines: int, start: int, now: int)

  ghost function PlayOf(g: GameData): Play
    reads g`tileStatus, g`numUncovered, g`gameOver, g`gameWon, g`numFlagged, g`time, g.tileStatus
  {
    Play(g.tileStatus[..], g.numUncovered, g.gameOver, g.gameWon, g.numFlagged, g.time)
  }

  ghost function RunOf(g: GameData, menu: MenuSettings, now: int): Run
    reads g`gameBoard, g`height, g`width, g`horzShift, g`vertShift, g`mines, g`gameStartTime, g.gameBoard
  {
    Run(g.Lay(menu), g.gameBoard[..], g.SafeTiles(), g.mines, g.gameStartTime, now)
  }

  /** The state Mine_GameWon leaves behind at tick count now. */
  ghost predicate Won(r: Run, p: Play) {
    && p.over && p.won && p.flagged == r.mines
    && 0 <= r.start < ULONGLONG_RANGE && 0 <= r.now < ULONGLONG_RANGE
    && p.time == ElapsedSeconds(r.start, r.now)
  }

  /**
   * The effect of a run of uncovering from p0 to p1 short of the win check:
   * tiles only get revealed, numUncovered grows by the number of newly
   * revealed safe tiles, and until every safe tile is uncovered the counters
   * and the clock are untouched and the game can only be lost.
   */
  ghost predicate Grows(r: Run, p0: Play, p1: Play) {
    && StatusGrew(p0.status, p1.status)
    && |p0.status| == |r.board|
    && p1.uncovered - p0.uncovered == RevealedSafe(r.board, p1.status) - RevealedSafe(r.board, p0.status)
    && p0.uncovered <= p1.uncovered
    && (p1.uncovered < r.safe ==>
          p1.flagged == p0.flagged && p1.time == p0.time && ((p1.over == p0.over && p1.won == p0.won) || (p1.over && !p1.won)))
  }

  /** Grows, and once every safe tile is uncovered the game is won (or nothing happened at all). */
  ghost predicate Progress(r: Run, p0: Play, p1: Play) {
    Grows(r, p0, p1) && (p1.uncovered == r.safe ==> Won(r, p1) || p1 == p0)
  }

  /** Uncovering that never touched a mine: every mine tile keeps its status and, short of a win, the game is not lost. */
  ghost predicate SafeProgress(r: Run, p0: Play, p1: Play) {
    && |p0.status| == |p1.status| == |r.board|
    && (forall i :: 0 <= i < |r.board| && r.board[i] == BOMB ==> p1.status[i] == p0.status[i])
    && (p1.uncovered < r.safe ==> p1.over == p0.over && p1.won == p0.won)
  }

  lemma ProgressRefl(r: Run, p: Play)
    requires |p.status| == |r.board|
    ensures Progress(r, p, p) && SafeProgress(r, p, p)
  {
  }

  lemma GrowsTrans(r: Run, p0: Play, p1: Play, p2: Play)
    requires Grows(r, p0, p1) && Grows(r, p1, p2)
    ensures Grows(r, p0, p2)
    ensures SafeProgress(r, p0, p1) && SafeProgress(r, p1, p2) && p1.uncovered <= p2.uncovered ==> SafeProgress(r, p0, p2)
  {
  }

  lemma ProgressTrans(r: Run, p0: Play, p1: Play, p2: Play)
    requires Progress(r, p0, p1) && Progress(r, p1, p2)
    ensures Progress(r, p0, p2)
    ensures SafeProgress(r, p0, p1) && SafeProgress(r, p1, p2) ==> SafeProgress(r, p0, p2)
  {
    GrowsTrans(r, p0, p1, p2);
  }

  /** The neighbour at offset (dx, dy) is off the board or not Normal. */
  ghost predicate NotNormalAt(l: Layout, s: seq<TileStatus>, x: int, y: int, dx: int, dy: int)
    requires l.Valid() && |s| == l.Size()
  {
    match l.Neighbour(x, y, dx, dy)
    case None => true
    case Some(c) => s[l.Index(c.0, c.1)] != Normal
  }

  /** The neighbours at offsets (dx, -1) .. (dx, dyEnd - 1) are not Normal. */
  ghost predicate RowsCleared(l: Layout, s: seq<TileStatus>, x: int, y: int, dx: int, dyEnd: int)
    requires l.Valid() && |s| == l.Size()
  {
    forall dy :: -1 <= dy < dyEnd ==> NotNormalAt(l, s, x, y, dx, dy)
  }

  /** The neighbours in columns -1 .. dxEnd - 1 of the block are not Normal. */
  ghost predicate ColsCleared(l: Layout, s: seq<TileStatus>, x: int, y: int, dxEnd: int)
    requires l.Valid() && |s| == l.Size()
  {
    forall dx :: -1 <= dx < dxEnd ==> RowsCleared(l, s, x, y, dx, 2)
  }

  /** Clearing all three columns leaves no Normal tile in the block. */
  lemma ColsClearedAll(l: Layout, s: seq<TileStatus>, x: int, y: int)
    requires l.Valid() && |s| == l.Size()
    ensures ColsCleared(l, s, x, y, 2) <==> NoMarkedNeighbour(l, StatusMask(s, Normal), x, y, false)
  {
    if ColsCleared(l, s, x, y, 2) {
      forall dx, dy | -1 <= dx <= 1 && -1 <= dy <= 1 && l.Neighbour(x, y, dx, dy).Some?
        ensures !StatusMask(s, Normal)[l.Index(l.Neighbour(x, y, dx, dy).value.0, l.Neighbour(x, y, dx, dy).value.1)]
      {
        assert RowsCleared(l, s, x, y, dx, 2);
        assert NotNormalAt(l, s, x, y, dx, dy);
      }
    }
    if NoMarkedNeighbour(l, StatusMask(s, Normal), x, y, false) {
      forall dx | -1 <= dx < 2
        ensures RowsCleared(l, s, x, y, dx, 2)
      {
        forall dy | -1 <= dy < 2
          ensures NotNormalAt(l, s, x, y, dx, dy)
        {
          if l.Neighbour(x, y, dx, dy).Some? {
            var c := l.Neighbour(x, y, dx, dy).value;
            assert !StatusMask(s, Normal)[l.Index(c.0, c.1)];
          }
        }
      }
    }
  }

  lemma GrewKeepsNotNormal(l: Layout, s0: seq<TileStatus>, s1: seq<TileStatus>, x: int, y: int, dx: int, dy: int)
    requires l.Valid() && |s0| == l.Size() && StatusGrew(s0, s1)
    requires NotNormalAt(l, s0, x, y, dx, dy)
    ensures NotNormalAt(l, s1, x, y, dx, dy)
  {
    if l.Neighbour(x, y, dx, dy).Some? {
      GrewKeepsStatus(s0, s1, l.Index(l.Neighbour(x, y, dx, dy).value.0, l.Neighbour(x, y, dx, dy).value.1));
    }
  }

  lemma GrewKeepsStatus(s0: seq<TileStatus>, s1: seq<TileStatus>, i: int)
    requires StatusGrew(s0, s1) && 0 <= i < |s0| && s0[i] != Normal
    ensures s1[i] == s0[i]
  {
  }

  lemma GrewKeepsRows(l: Layout, s0: seq<TileStatus>, s1: seq<TileStatus>, x: int, y: int, dx: int, dyEnd: int)
    requires l.Valid() && |s0| == l.Size() && StatusGrew(s0, s1)
    requires RowsCleared(l, s0, x, y, dx, dyEnd)
    ensures RowsCleared(l, s1, x, y, dx, dyEnd)
  {
    forall dy | -1 <= dy < dyEnd
      ensures NotNormalAt(l, s1, x, y, dx, dy)
    {
      GrewKeepsNotNormal(l, s0, s1, x, y, dx, dy);
    }
  }

  lemma GrewKeepsCols(l: Layout, s0: seq<TileStatus>, s1: seq<TileStatus>, x: int, y: int, dxEnd: int)
    requires l.Valid() && |s0| == l.Size() && StatusGrew(s0, s1)
    requires ColsCleared(l, s0, x, y, dxEnd)
    ensures ColsCleared(l, s1, x, y, dxEnd)
  {
    forall dx | -1 <= dx < dxEnd
      ensures RowsCleared(l, s1, x, y, dx, 2)
    {
      GrewKeepsRows(l, s0, s1, x, y, dx, 2);
    }
  }

  /** Growing the statuses keeps the block around (x, y) free of Normal tiles. */
  lemma GrewKeepsCleared(l: Layout, s0: seq<TileStatus>, s1: seq<TileStatus>, x: int, y: int)
    requires l.Valid() && |s0| == l.Size() && StatusGrew(s0, s1)
    requires NoMarkedNeighbour(l, StatusMask(s0, Normal), x, y, false)
    ensures NoMarkedNeighbour(l, StatusMask(s1, Normal), x, y, false)
  {
    ColsClearedAll(l, s0, x, y);
    GrewKeepsCols(l, s0, s1, x, y, 2);
    ColsClearedAll(l, s1, x, y);
  }

  /**
   * The flood fill from p0 to p1: every tile that went from Normal to
   * Revealed and has no neighbouring mine has no Normal tile left around it.
   */
  ghost predicate ZerosCleared(r: Run, p0: Play, p1: Play)
    requires r.lay.Valid() && |p0.status| == |p1.status| == |r.board| == r.lay.Size()
  {
    forall i :: 0 <= i < |r.board| && p0.status[i] == Normal && p1.status[i] == Revealed && r.board[i] == 0 ==>
      NoMarkedNeighbour(r.lay, StatusMask(p1.status, Normal), r.lay.CellOf(i).0, r.lay.CellOf(i).1, false)
  }

  lemma {:induction false} ZerosClearedTrans(r: Run, p0: Play, p1: Play, p2: Play)
    requires r.lay.Valid() && |p0.status| == |r.board| == r.lay.Size()
    requires StatusGrew(p0.status, p1.status) && StatusGrew(p1.status, p2.status)
    requires ZerosCleared(r, p0, p1) && ZerosCleared(r, p1, p2)
    ensures ZerosCleared(r, p0, p2)
  {
    forall i | 0 <= i < |r.board| && p0.status[i] == Normal && p2.status[i] == Revealed && r.board[i] == 0
      ensures NoMarkedNeighbour(r.lay, StatusMask(p2.status, Normal), r.lay.CellOf(i).0, r.lay.CellOf(i).1, false)
    {
      if p1.status[i] != Normal {
        GrewKeepsCleared(r.lay, p1.status, p2.status, r.lay.CellOf(i).0, r.lay.CellOf(i).1);
      }
    }
  }

  /**
   * What a stretch of the neighbour loop around the not-Normal tile (x, y)
   * guarantees from p0 to p1: Progress, the flood fill of ZerosCleared, the
   * centre stays not Normal, no tile became Normal again, and (for a safe
   * board) no mine was touched.
   */
  ghost predicate Visited(r: Run, p0: Play, p1: Play, x: int, y: int, safe: bool) {
    && r.lay.Valid() && r.lay.InGrid(x, y) && |p0.status| == r.lay.Size()
    && Progress(r, p0, p1)
    && ZerosCleared(r, p0, p1)
    && p1.status[r.lay.Index(x, y)] != Normal
    && NormalCount(p1.status) <= NormalCount(p0.status)
    && (safe ==> SafeProgress(r, p0, p1))
  }

  lemma VisitedRefl(r: Run, p: Play, x: int, y: int, safe: bool)
    requires r.lay.Valid() && r.lay.InGrid(x, y) && |p.status| == r.lay.Size() == |r.board|
    requires p.status[r.lay.Index(x, y)] != Normal
    ensures Visited(r, p, p, x, y, safe)
  {
    ProgressRefl(r, p);
  }

  lemma VisitedTrans(r: Run, p0: Play, p1: Play, p2: Play, x: int, y: int, safe: bool)
    requires Visited(r, p0, p1, x, y, safe) && Visited(r, p1, p2, x, y, safe)
    ensures Visited(r, p0, p2, x, y, safe)
    ensures StatusGrew(p1.status, p2.status)
  {
    ProgressTrans(r, p0, p1, p2);
    ZerosClearedTrans(r, p0, p1, p2);
  }

  /** One visit of the row loop: the rows already cleared stay cleared and row dy joins them. */
  lemma RowStep(r: Run, p0: Play, p1: Play, p2: Play, x: int, y: int, dx: int, dy: int, safe: bool)
    requires Visited(r, p0, p1, x, y, safe) && RowsCleared(r.lay, p1.status, x, y, dx, dy)
    requires Visited(r, p1, p2, x, y, safe) && NotNormalAt(r.lay, p2.status, x, y, dx, dy)
    ensures Visited(r, p0, p2, x, y, safe) && RowsCleared(r.lay, p2.status, x, y, dx, dy + 1)
  {
    VisitedTrans(r, p0, p1, p2, x, y, safe);
    GrewKeepsRows(r.lay, p1.status, p2.status, x, y, dx, dy);
  }

  /** One visit of the column loop: the columns already cleared stay cleared and column dx joins them. */
  lemma ColumnStep(r: Run, p0: Play, p1: Play, p2: Play, x: int, y: int, dx: int, safe: bool)
    requires Visited(r, p0, p1, x, y, safe) && ColsCleared(r.lay, p1.status, x, y, dx)
    requires Visited(r, p1, p2, x, y, safe) && RowsCleared(r.lay, p2.status, x, y, dx, 2)
    ensures Visited(r, p0, p2, x, y, safe) && ColsCleared(r.lay, p2.status, x, y, dx + 1)
  {
    VisitedTrans(r, p0, p1, p2, x, y, safe);
    GrewKeepsCols(r.lay, p1.status, p2.status, x, y, dx);
  }

  // ---------------------------------------------------------------
  // MineMouse_UncoverTile
  // ---------------------------------------------------------------

  /**
   * What MineMouse_UncoverTile at (x, y) achieves from p0 to p1: Progress,
   * the tile is Revealed and one fewer tile at least is Normal, the game is
   * won exactly when the last safe tile is uncovered, a numbered tile (or a
   * mine) changes only itself, around the tile (when it is a zero) and around
   * every zero the cascade reveals no Normal tile is left, a mine loses the
   * game short of a win, and on a safe board no mine is touched.
   */
  ghost predicate Uncovered(r: Run, p0: Play, p1: Play, x: int, y: int, safe: bool) {
    && r.lay.Valid() && r.lay.InGrid(x, y) && |p0.status| == r.lay.Size()
    && Progress(r, p0, p1)
    && ZerosCleared(r, p0, p1)
    && p1.status[r.lay.Index(x, y)] == Revealed
    && NormalCount(p1.status) < NormalCount(p0.status)
    && (p1.uncovered == r.safe ==> Won(r, p1))
    && (r.board[r.lay.Index(x, y)] != 0 ==> p1.status == p0.status[r.lay.Index(x, y) := Revealed])
    && (r.board[r.lay.Index(x, y)] == 0 ==> NoMarkedNeighbour(r.lay, StatusMask(p1.status, Normal), x, y, false))
    && (r.board[r.lay.Index(x, y)] == BOMB && p1.uncovered < r.safe ==> p1.over && !p1.won)
    && (safe ==> SafeProgress(r, p0, p1))
  }

  /** The reveal at the start of MineMouse_UncoverTile, from p0 to p1. */
  ghost predicate RevealStage(r: Run, p0: Play, p1: Play, x: int, y: int) {
    && r.lay.Valid() && r.lay.InGrid(x, y) && |p0.status| == r.lay.Size() == |r.board|
    && p1.status == p0.status[r.lay.Index(x, y) := Revealed]
    && Grows(r, p0, p1)
    && NormalCount(p1.status) == NormalCount(p0.status) - 1
    && (r.board[r.lay.Index(x, y)] == BOMB ==> p1.over && !p1.won)
    && (r.board[r.lay.Index(x, y)] != BOMB ==> SafeProgress(r, p0, p1))
  }

  /** The neighbour loop around (x, y), from p0 to p1: Visited, and no Normal tile is left in the block. */
  ghost predicate Surrounded(r: Run, p0: Play, p1: Play, x: int, y: int, safe: bool) {
    && Visited(r, p0, p1, x, y, safe)
    && NoMarkedNeighbour(r.lay, StatusMask(p1.status, Normal), x, y, false)
  }

  /** The win check at the end of MineMouse_UncoverTile, from p0 to p1. */
  ghost predicate WinChecked(r: Run, p0: Play, p1: Play) {
    && (p0.uncovered == r.safe ==> Won(r, p1) && p1.status == p0.status && p1.uncovered == p0.uncovered)
    && (p0.uncovered != r.safe ==> p1 == p0)
  }

  /**
   * The three stages of MineMouse_UncoverTile put together: the reveal from
   * p0 to p1, the neighbour loop (around a zero) from p1 to p2, and the win
   * check from p2 to p3.
   */
  lemma UncoverStages(r: Run, p0: Play, p1: Play, p2: Play, p3: Play, x: int, y: int, safe: bool)
    requires RevealStage(r, p0, p1, x, y)
    requires safe ==> r.board[r.lay.Index(x, y)] != BOMB
    requires r.board[r.lay.Index(x, y)] == 0 ==> Surrounded(r, p1, p2, x, y, safe)
    requires r.board[r.lay.Index(x, y)] != 0 ==> p2 == p1
    requires WinChecked(r, p2, p3)
    ensures Uncovered(r, p0, p3, x, y, safe)
  {
    var idx := r.lay.Index(x, y);
    if r.board[idx] == 0 {
      GrewKeepsStatus(p1.status, p2.status, idx);
      GrowsTrans(r, p0, p1, p2);
      r.lay.CellOfIndex(x, y);
      forall i | 0 <= i < |r.board| && p0.status[i] == Normal && p3.status[i] == Revealed && r.board[i] == 0
        ensures NoMarkedNeighbour(r.lay, StatusMask(p3.status, Normal), r.lay.CellOf(i).0, r.lay.CellOf(i).1, false)
      {
        if i != idx {
          assert p1.status[i] == Normal;
        }
      }
    } else {
      assert ZerosCleared(r, p0, p3) by {
        forall i | 0 <= i < |r.board| && p0.status[i] == Normal && p3.status[i] == Revealed
          ensures i == idx
        {
        }
      }
    }
  }

  /**
   * MineMouse_UncoverTile: reveal the Normal tile (x, y). A mine loses the
   * game; a safe tile counts as uncovered and, when it has no neighbouring
   * mine, every Normal neighbour is uncovered in turn. Whenever the last
   * safe tile is uncovered the game is won.
   */
  method UncoverTile(g: GameData, menu: MenuSettings, x: int, y: int, now: int, ghost run: Run, ghost safe: bool)
    requires g.Valid() && run == RunOf(g, menu, now) && 0 <= now < ULONGLONG_RANGE
    requires run.lay.InGrid(x, y)
    requires g.tileStatus[run.lay.Index(x, y)] == Normal
    requires safe ==> NumbersConsistent(run.lay, run.board) && g.gameBoard[run.lay.Index(x, y)] != BOMB
    modifies g.tileStatus, g`numUncovered, g`gameOver, g`gameWon, g`numFlagged, g`time
    ensures g.Valid()
    ensures Uncovered(run, old(PlayOf(g)), PlayOf(g), x, y, safe)
    decreases NormalCount(g.tileStatus[..]), 4
  {
    var l := g.Lay(menu);
    var idx := l.Index(x, y);
    ghost var p0 := PlayOf(g);
    var boardNumber := g.gameBoard[idx];
    RevealTile(g, menu, x, y, now, run);
    ghost var p1 := PlayOf(g);
    if boardNumber == 0 {
      if safe {
        assert ConsistentAt(l, g.gameBoard[..], idx);
        l.CellOfIndex(x, y);
        BlockCountZero(l, BombMask(g.gameBoard[..]), x, y, true);
      }
      UncoverAround(g, menu, x, y, now, run, safe);
    }
    ghost var p2 := PlayOf(g);
    CheckWin(g, menu, now, run);
    UncoverStages(run, p0, p1, p2, PlayOf(g), x, y, safe);
  }

  /** The writes of the reveal, from p0 to p1, make up RevealStage. */
  lemma RevealStep(r: Run, p0: Play, p1: Play, x: int, y: int)
    requires r.lay.Valid() && r.lay.InGrid(x, y) && |p0.status| == r.lay.Size() == |r.board|
    requires p0.status[r.lay.Index(x, y)] == Normal
    requires p1.status == p0.status[r.lay.Index(x, y) := Revealed]
    requires p1.flagged == p0.flagged && p1.time == p0.time
    requires r.board[r.lay.Index(x, y)] == BOMB ==> p1.over && !p1.won && p1.uncovered == p0.uncovered
    requires r.board[r.lay.Index(x, y)] != BOMB ==> p1.over == p0.over && p1.won == p0.won && p1.uncovered == p0.uncovered + 1
    ensures RevealStage(r, p0, p1, x, y)
  {
    RevealOne(r.board, p0.status, r.lay.Index(x, y));
  }

  /** The first half of MineMouse_UncoverTile: mark (x, y) Revealed, then lose the game on a mine or count one more uncovered tile. */
  method RevealTile(g: GameData, menu: MenuSettings, x: int, y: int, now: int, ghost run: Run)
    requires g.Valid() && run == RunOf(g, menu, now)
    requires run.lay.InGrid(x, y)
    requires g.tileStatus[run.lay.Index(x, y)] == Normal
    modifies g.tileStatus, g`numUncovered, g`gameOver, g`gameWon
    ensures g.Valid()
    ensures RevealStage(run, old(PlayOf(g)), PlayOf(g), x, y)
  {
    var l := g.Lay(menu);
    var idx := l.Index(x, y);
    ghost var p0 := PlayOf(g);
    var boardNumber := g.gameBoard[idx];
    g.tileStatus[idx] := Revealed;
    if boardNumber == BOMB {
      g.gameOver := true;
      g.gameWon := false;
    } else {
      g.numUncovered := g.numUncovered + 1;
    }
    RevealStep(run, p0, PlayOf(g), x, y);
  }

  /** The end of MineMouse_UncoverTile: once every safe tile is uncovered, Mine_GameWon. */
  method CheckWin(g: GameData, menu: MenuSettings, now: int, ghost run: Run)
    requires g.Valid() && run == RunOf(g, menu, now) && 0 <= now < ULONGLONG_RANGE
    modifies g`numFlagged, g`time, g`gameOver, g`gameWon
    ensures g.Valid()
    ensures WinChecked(run, old(PlayOf(g)), PlayOf(g))
  {
    if g.height * g.width - g.mines == g.numUncovered {
      g.AreaBound();
      var newRecord := GameWon(g, menu, now);
    }
  }

  /**
   * The neighbour loop of MineMouse_UncoverTile (and of the chord in
   * MineMouse_ProcessDoubleClick): uncover every Normal tile of the block
   * around the not-Normal tile (x, y), columns x-1, x, x+1 in turn.
   */
  method UncoverAround(g: GameData, menu: MenuSettings, x: int, y: int, now: int, ghost run: Run, ghost safe: bool)
    requires g.Valid() && run == RunOf(g, menu, now) && 0 <= now < ULONGLONG_RANGE
    requires run.lay.InGrid(x, y)
    requires g.tileStatus[run.lay.Index(x, y)] != Normal
    requires safe ==> NumbersConsistent(run.lay, run.board) && NoMarkedNeighbour(run.lay, BombMask(run.board), x, y, true)
    modifies g.tileStatus, g`numUncovered, g`gameOver, g`gameWon, g`numFlagged, g`time
    ensures g.Valid()
    ensures Surrounded(run, old(PlayOf(g)), PlayOf(g), x, y, safe)
    decreases NormalCount(g.tileStatus[..]) + 1, 3
  {
    ghost var l := g.Lay(menu);
    ghost var p0 := PlayOf(g);
    VisitedRefl(run, p0, x, y, safe);
    for ix := -1 to 2
      invariant g.Valid()
      invariant Visited(run, p0, PlayOf(g), x, y, safe)
      invariant ColsCleared(l, g.tileStatus[..], x, y, ix)
    {
      ghost var p1 := PlayOf(g);
      UncoverColumn(g, menu, x, y, ix, now, run, safe);
      ColumnStep(run, p0, p1, PlayOf(g), x, y, ix, safe);
    }
    ColsClearedAll(l, g.tileStatus[..], x, y);
  }

  /** One column x + ix of the neighbour loop, after the horizontal wrap rule. */
  method UncoverColumn(g: GameData, menu: MenuSettings, x: int, y: int, ix: int, now: int, ghost run: Run, ghost safe: bool)
    requires g.Valid() && run == RunOf(g, menu, now) && 0 <= now < ULONGLONG_RANGE
    requires run.lay.InGrid(x, y) && -1 <= ix <= 1
    requires g.tileStatus[run.lay.Index(x, y)] != Normal
    requires safe ==> NumbersConsistent(run.lay, run.board) && NoMarkedNeighbour(run.lay, BombMask(run.board), x, y, true)
    modifies g.tileStatus, g`numUncovered, g`gameOver, g`gameWon, g`numFlagged, g`time
    ensures g.Valid()
    ensures Visited(run, old(PlayOf(g)), PlayOf(g), x, y, safe)
    ensures RowsCleared(run.lay, PlayOf(g).status, x, y, ix, 2)
    decreases NormalCount(g.tileStatus[..]) + 1, 2
  {
    ghost var l := g.Lay(menu);
    ghost var p0 := PlayOf(g);
    VisitedRefl(run, p0, x, y, safe);
    match Wrap(x + ix, g.width, menu.wrapHorz)
    case None =>
    case Some(xPos) =>
      for jx := -1 to 2
        invariant g.Valid()
        invariant Visited(run, p0, PlayOf(g), x, y, safe)
        invariant RowsCleared(l, g.tileStatus[..], x, y, ix, jx)
      {
        ghost var p1 := PlayOf(g);
        UncoverNeighbour(g, menu, x, y, ix, jx, xPos, now, run, safe);
        RowStep(run, p0, p1, PlayOf(g), x, y, ix, jx, safe);
      }
  }

  /** The body of the neighbour loop at offset (ix, jx): wrap the row, then uncover the tile there if it is Normal. */
  method UncoverNeighbour(g: GameData, menu: MenuSettings, x: int, y: int, ix: int, jx: int, xPos: int, now: int, ghost run: Run, ghost safe: bool)
    requires g.Valid() && run == RunOf(g, menu, now) && 0 <= now < ULONGLONG_RANGE
    requires run.lay.InGrid(x, y)
    requires -1 <= ix <= 1 && -1 <= jx <= 1 && Wrap(x + ix, g.width, menu.wrapHorz) == Some(xPos)
    requires g.tileStatus[run.lay.Index(x, y)] != Normal
    requires safe ==> NumbersConsistent(run.lay, run.board) && NoMarkedNeighbour(run.lay, BombMask(run.board), x, y, true)
    modifies g.tileStatus, g`numUncovered, g`gameOver, g`gameWon, g`numFlagged, g`time
    ensures g.Valid()
    ensures Visited(run, old(PlayOf(g)), PlayOf(g), x, y, safe)
    ensures NotNormalAt(run.lay, PlayOf(g).status, x, y, ix, jx)
    decreases NormalCount(g.tileStatus[..]) + 1, 1
  {
    var l := g.Lay(menu);
    ghost var p0 := PlayOf(g);
    VisitedRefl(run, p0, x, y, safe);
    match Wrap(y + jx, g.height, menu.wrapVert)
    case None =>
    case Some(yPos) =>
      assert l.Neighbour(x, y, ix, jx) == Some((xPos, yPos));
      var k := l.Index(xPos, yPos);
      if g.tileStatus[k] == Normal {
        assert !(ix == 0 && jx == 0);
        if safe {
          NoMarkedAt(l, BombMask(run.board), x, y, true, ix, jx, xPos, yPos);
        }
        UncoverTile(g, menu, xPos, yPos, now, run, safe);
        GrewKeepsStatus(p0.status, g.tileStatus[..], l.Index(x, y));
        assert NormalCount(g.tileStatus[..]) <= NormalCount(p0.status);
      }
  }
}
