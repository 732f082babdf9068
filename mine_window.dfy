/**
 * The game-state parts of the window procedure: the arrow keys that scroll
 * a wrapping board, the routing of mouse messages to the click handlers
 * behind their game-over and board-region gates, and the two timers.
 */
module MineWindow {
  import opened MineDefs
  import opened BoardSpec
  import opened Mine
  import opened MineRandom
  import MineMouse
  import opened MineMovement

  // ---------------------------------------------------------------
  // Arrow keys
  // ---------------------------------------------------------------

  datatype ArrowKey = ArrowDown | ArrowUp | ArrowRight | ArrowLeft | OtherKey

  /** One step forward around a cycle of dim values, as (v + 1) % dim computes it. */
  function StepForward(v: int, dim: int): (r: int)
    requires 0 <= v < dim
    ensures 0 <= r < dim
    ensures r == if v == dim - 1 then 0 else v + 1
  {
    (v + 1) % dim
  }

  /** One step back around a cycle of dim values, as (v + dim - 1) % dim computes it. */
  function StepBack(v: int, dim: int): (r: int)
    requires 0 <= v < dim
    ensures 0 <= r < dim
    ensures r == if v == 0 then dim - 1 else v - 1
  {
    (v + dim - 1) % dim
  }

  /** A held-tile coordinate moved one step back, -1 (no tile held) left alone. */
  function PrevBack(p: int, dim: int): int
    requires p == -1 || 0 <= p < dim
  {
    if p != -1 then StepBack(p, dim) else p
  }

  /** A held-tile coordinate moved one step forward, -1 (no tile held) left alone. */
  function PrevForward(p: int, dim: int): int
    requires p == -1 || 0 <= p < dim
  {
    if p != -1 then StepForward(p, dim) else p
  }

  /**
   * The shifts and the held-tile coordinates after an arrow key. Down and
   * Up move the vertical shift, Right and Left the horizontal one, each only
   * when that axis wraps; the held coordinate moves the opposite way. Left
   * then falls through to the default handler, which changes no game state.
   */
  function Scroll(l: Layout, prev: (int, int), key: ArrowKey): (r: (Layout, (int, int)))
    requires l.Valid() && MineMouse.PrevOk(l, prev)
    ensures r.0.Valid() && MineMouse.PrevOk(r.0, r.1)
    ensures r.0.width == l.width && r.0.height == l.height && r.0.wrapHorz == l.wrapHorz && r.0.wrapVert == l.wrapVert
    ensures (r.1.0 == -1) == (prev.0 == -1) && (r.1.1 == -1) == (prev.1 == -1)
  {
    match key
    case ArrowDown =>
      if l.wrapVert then (l.(vertShift := StepForward(l.vertShift, l.height)), (prev.0, PrevBack(prev.1, l.height)))
      else (l, prev)
    case ArrowUp =>
      if l.wrapVert then (l.(vertShift := StepBack(l.vertShift, l.height)), (prev.0, PrevForward(prev.1, l.height)))
      else (l, prev)
    case ArrowRight =>
      if l.wrapHorz then (l.(horzShift := StepForward(l.horzShift, l.width)), (PrevBack(prev.0, l.width), prev.1))
      else (l, prev)
    case ArrowLeft =>
      if l.wrapHorz then (l.(horzShift := StepBack(l.horzShift, l.width)), (PrevForward(prev.0, l.width), prev.1))
      else (l, prev)
    case OtherKey => (l, prev)
  }

  /** A value below twice dim reduced modulo dim. */
  lemma ModOnce(t: int, dim: int)
    requires 0 <= t < 2 * dim
    ensures t % dim == if t < dim then t else t - dim
  {
    if t >= dim {
      assert t == 1 * dim + (t - dim);
    }
  }

  /** Moving a shift forward and a coordinate back (or the reverse) keeps their sum modulo dim. */
  lemma OppositeSteps(v: int, s: int, dim: int)
    requires 0 <= v < dim && 0 <= s < dim
    ensures (StepBack(v, dim) + StepForward(s, dim)) % dim == (v + s) % dim
    ensures (StepForward(v, dim) + StepBack(s, dim)) % dim == (v + s) % dim
  {
    ModOnce(v + s, dim);
    ModOnce(StepBack(v, dim) + StepForward(s, dim), dim);
    ModOnce(StepForward(v, dim) + StepBack(s, dim), dim);
  }

  /**
   * Scrolling relabels the cells without moving any of them in storage: a
   * cell's coordinates after the key's translation index the same array
   * slot under the new shifts. In particular the held tile stays the same
   * tile of the board.
   */
  lemma ScrollKeepsStorage(l: Layout, x: int, y: int, key: ArrowKey)
    requires l.Valid() && l.InGrid(x, y)
    ensures var r := Scroll(l, (x, y), key);
      r.0.InGrid(r.1.0, r.1.1) && r.0.Index(r.1.0, r.1.1) == l.Index(x, y)
  {
    match key
    case ArrowDown =>
      OppositeSteps(y, l.vertShift, l.height);
    case ArrowUp =>
      OppositeSteps(y, l.vertShift, l.height);
    case ArrowRight =>
      OppositeSteps(x, l.horzShift, l.width);
    case ArrowLeft =>
      OppositeSteps(x, l.horzShift, l.width);
    case OtherKey =>
  }

  /** Up undoes Down, and Left undoes Right, on the shifts and the held tile alike. */
  lemma ScrollInverse(l: Layout, prev: (int, int))
    requires l.Valid() && MineMouse.PrevOk(l, prev)
    ensures var d := Scroll(l, prev, ArrowDown); Scroll(d.0, d.1, ArrowUp) == (l, prev)
    ensures var u := Scroll(l, prev, ArrowUp); Scroll(u.0, u.1, ArrowDown) == (l, prev)
    ensures var r := Scroll(l, prev, ArrowRight); Scroll(r.0, r.1, ArrowLeft) == (l, prev)
    ensures var t := Scroll(l, prev, ArrowLeft); Scroll(t.0, t.1, ArrowRight) == (l, prev)
  {
  }

  /**
   * WM_KEYDOWN: scroll the board and keep a held tile under the cursor.
   * The answer is the cell of the mouse move the handler then sends to
   * itself, the held tile's coordinates from before the scroll, or None
   * when no tile is held.
   */
  method KeyDown(g: GameData, menu: MenuSettings, key: ArrowKey) returns (moveTo: Option<(int, int)>)
    requires g.Valid()
    modifies g`horzShift, g`vertShift, g`prevGridX, g`prevGridY
    ensures g.Valid()
    ensures (g.Lay(menu), MineMouse.PrevOf(g)) == Scroll(old(g.Lay(menu)), old(MineMouse.PrevOf(g)), key)
    ensures moveTo == if old(MineMouse.PrevOf(g)) != (-1, -1) then Some(old(MineMouse.PrevOf(g))) else None
  {
    var xMouse, yMouse := g.prevGridX, g.prevGridY;
    match key {
      case ArrowDown =>
        if menu.wrapVert {
          g.vertShift := StepForward(g.vertShift, g.height);
          g.prevGridY := PrevBack(g.prevGridY, g.height);
        }
      case ArrowUp =>
        if menu.wrapVert {
          g.vertShift := StepBack(g.vertShift, g.height);
          g.prevGridY := PrevForward(g.prevGridY, g.height);
        }
      case ArrowRight =>
        if menu.wrapHorz {
          g.horzShift := StepForward(g.horzShift, g.width);
          g.prevGridX := PrevBack(g.prevGridX, g.width);
        }
      case ArrowLeft =>
        if menu.wrapHorz {
          g.horzShift := StepBack(g.horzShift, g.width);
          g.prevGridX := PrevForward(g.prevGridX, g.width);
        }
      case OtherKey =>
    }
    if g.prevGridX != -1 && g.prevGridY != -1 {
      moveTo := Some((xMouse, yMouse));
    } else {
      moveTo := None;
    }
  }

  // ---------------------------------------------------------------
  // Mouse messages
  // ---------------------------------------------------------------

  /** Where the cursor is: over the face button, over the board tile (x, y), or elsewhere. */
  datatype Spot = OnFace | OnTile(x: int, y: int) | Elsewhere

  datatype MouseMessage =
    | LButtonDown(at: Spot)
    | LButtonUp(at: Spot)
    | MouseMove(at: Spot)
    | RButtonDown(at: Spot)
    | RButtonUp(at: Spot)

  /** The handler a mouse message is passed to. */
  datatype Handler =
    | StartLeftClick(at: Spot)
    | StartDoubleClick(at: Spot)
    | ProcessLeftClick(at: Spot)
    | ProcessDoubleClick(at: Spot)
    | MoveLeftClick(at: Spot)
    | MoveDoubleClick(at: Spot)
    | ProcessRightDown(at: Spot)
    | NewGame
    | NoHandler

  /** The leftDown and rightDown flags the window procedure keeps. */
  datatype Buttons = Buttons(leftDown: bool, rightDown: bool)

  /** The handlers that act on the tile under the cursor. */
  predicate ActsOnTile(h: Handler) {
    h.StartLeftClick? || h.StartDoubleClick? || h.ProcessLeftClick? || h.ProcessDoubleClick? || h.ProcessRightDown?
  }

  /**
   * The mouse cases of the window procedure as written. The right button's
   * release chords whenever the left button is down, with neither the
   * game-over check nor the board-region check the other cases make.
   */
  function RouteAsWritten(msg: MouseMessage, gameOver: bool, b: Buttons): (Handler, Buttons) {
    match msg
    case RButtonUp(at) => (if b.leftDown then ProcessDoubleClick(at) else NoHandler, Buttons(false, false))
    case _ => Route(msg, gameOver, b)
  }

  /** The release chords off the board and after the game is over. */
  lemma RouteAsWrittenChordsAfterGameOver()
    ensures RouteAsWritten(RButtonUp(Elsewhere), true, Buttons(true, true)).0 == ProcessDoubleClick(Elsewhere)
    ensures ActsOnTile(RouteAsWritten(RButtonUp(Elsewhere), true, Buttons(true, true)).0)
  {
  }

  /**
   * The mouse cases of the window procedure, with the right button's
   * release gated like the left button's: the chord runs only while the
   * game is on and the cursor is over the board. Releasing either button
   * clears both flags; pressing one sets its own.
   */
  function Route(msg: MouseMessage, gameOver: bool, b: Buttons): (r: (Handler, Buttons))
    ensures ActsOnTile(r.0) ==> !gameOver && r.0.at.OnTile?
    ensures r.0.MoveLeftClick? || r.0.MoveDoubleClick? ==> !gameOver && b.leftDown
    ensures r.0.ProcessLeftClick? || r.0.ProcessDoubleClick? ==> b.leftDown
  {
    match msg
    case LButtonDown(at) =>
      (if !gameOver && at.OnTile? then (if b.rightDown then StartDoubleClick(at) else StartLeftClick(at)) else NoHandler,
       b.(leftDown := true))
    case LButtonUp(at) =>
      (if at.OnFace? then NewGame
       else if !gameOver && b.leftDown && at.OnTile? then (if b.rightDown then ProcessDoubleClick(at) else ProcessLeftClick(at))
       else NoHandler,
       Buttons(false, false))
    case MouseMove(at) =>
      (if !gameOver && b.leftDown then (if b.rightDown then MoveDoubleClick(at) else MoveLeftClick(at)) else NoHandler, b)
    case RButtonDown(at) =>
      (if !gameOver && at.OnTile? then (if b.leftDown then StartDoubleClick(at) else ProcessRightDown(at)) else NoHandler,
       b.(rightDown := true))
    case RButtonUp(at) =>
      (if b.leftDown && !gameOver && at.OnTile? then ProcessDoubleClick(at) else NoHandler, Buttons(false, false))
  }

  /** Once the game is over, only the face button (a new game) does anything. */
  lemma RouteAfterGameOver(msg: MouseMessage, b: Buttons)
    ensures Route(msg, true, b).0 in {NewGame, NoHandler}
  {
  }

  /** The correction changes only the right button's release off the board or after the game. */
  lemma RouteDiffersOnlyOnGatedRelease(msg: MouseMessage, gameOver: bool, b: Buttons)
    ensures RouteAsWritten(msg, gameOver, b) != Route(msg, gameOver, b) <==>
      msg.RButtonUp? && b.leftDown && (gameOver || !msg.at.OnTile?)
  {
  }

  /** The window procedure's mouse cases: route the message and update the button flags. */
  method MouseInput(g: GameData, msg: MouseMessage) returns (handler: Handler)
    modifies g`leftDown, g`rightDown
    ensures (handler, Buttons(g.leftDown, g.rightDown)) == Route(msg, g.gameOver, old(Buttons(g.leftDown, g.rightDown)))
  {
    handler := NoHandler;
    match msg {
      case LButtonDown(at) =>
        if !g.gameOver && at.OnTile? {
          handler := if g.rightDown then StartDoubleClick(at) else StartLeftClick(at);
        }
        g.leftDown := true;
      case LButtonUp(at) =>
        if at.OnFace? {
          handler := NewGame;
        } else if !g.gameOver && g.leftDown && at.OnTile? {
          handler := if g.rightDown then ProcessDoubleClick(at) else ProcessLeftClick(at);
        }
        g.leftDown, g.rightDown := false, false;
      case MouseMove(at) =>
        if !g.gameOver && g.leftDown {
          handler := if g.rightDown then MoveDoubleClick(at) else MoveLeftClick(at);
        }
      case RButtonDown(at) =>
        if !g.gameOver && at.OnTile? {
          handler := if g.leftDown then StartDoubleClick(at) else ProcessRightDown(at);
        }
        g.rightDown := true;
      case RButtonUp(at) =>
        if g.leftDown {
          if !g.gameOver && at.OnTile? {
            handler := ProcessDoubleClick(at);
          }
          g.leftDown := false;
        }
        g.rightDown := false;
    }
  }

  // ---------------------------------------------------------------
  // Timers
  // ---------------------------------------------------------------

  datatype TimerId = ClockTimer | MoveTimer

  /**
   * WM_TIMER: while a game is running, the clock timer updates the shown
   * time until it reaches the maximum and the movement timer moves a mine.
   * Neither touches the tile statuses; a move keeps the number of mines and
   * keeps right numbers right.
   */
  method OnTimer(g: GameData, menu: MenuSettings, rng: RandomSource, timer: TimerId, now: int) returns (status: MineError)
    requires g.Valid() && menu.Valid() && 0 <= now < ULONGLONG_RANGE
    modifies g`time, g.gameBoard, rng
    ensures g.Valid()
    ensures !(g.gameStarted && !g.gameOver) || timer == ClockTimer ==>
      status == Success && g.gameBoard[..] == old(g.gameBoard[..]) && rng.samples == old(rng.samples)
    ensures g.time == if g.gameStarted && !g.gameOver && timer == ClockTimer && old(g.time) < MAX_TIME
      then ElapsedSeconds(g.gameStartTime, now) else old(g.time)
    ensures BombCount(g.gameBoard[..]) == BombCount(old(g.gameBoard[..]))
    ensures NumbersConsistent(g.Lay(menu), old(g.gameBoard[..])) ==> NumbersConsistent(g.Lay(menu), g.gameBoard[..])
  {
    status := Success;
    if g.gameStarted && !g.gameOver {
      if timer == ClockTimer && g.time < MAX_TIME {
        ProcessTimer(g, now);
      } else if timer == MoveTimer {
        ghost var outcome;
        status, outcome := ProcessMovement(g, menu, rng);
      }
    }
  }
}
