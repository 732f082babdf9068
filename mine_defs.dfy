/**
 * Constants, codes, settings records and the board index arithmetic of the
 * Minesweeper game (Mine.h), together with the wrap rule that every
 * neighbour loop of the game repeats.
 */
module MineDefs {

  datatype Option<T> = None | Some(value: T)

  // ---------------------------------------------------------------
  // Levels and limits
  // ---------------------------------------------------------------

  const LEVEL_BEGINNER: int := 1
  const LEVEL_INTERMEDIATE: int := 2
  const LEVEL_EXPERT: int := 3
  const LEVEL_CUSTOM: int := 4

  /** The number-image style that draws the numbers 1..8 with randomly chosen glyphs. */
  const NUMBER_IMAGE_RANDOM: int := 3
  /** How many random glyphs there are to choose from. */
  const NUM_RANDOM_TILES: int := 16

  const BEGINNER_HEIGHT: int := 9
  const BEGINNER_WIDTH: int := 9
  const BEGINNER_MINES: int := 10
  const INTERMEDIATE_HEIGHT: int := 16
  const INTERMEDIATE_WIDTH: int := 16
  const INTERMEDIATE_MINES: int := 40
  const EXPERT_HEIGHT: int := 16
  const EXPERT_WIDTH: int := 30
  const EXPERT_MINES: int := 99

  const MAX_HEIGHT: int := 48
  const MAX_WIDTH: int := 60

  /** Largest value the timer shows, in seconds. */
  const MAX_TIME: int := 999
  /** Milliseconds per second. */
  const SECOND: int := 1000

  /** The value a board cell holds when it is a mine. */
  const BOMB: int := -1

  /** Range of the 32-bit unsigned `UINT`/`DWORD` and the 64-bit `ULONGLONG`. */
  const UINT_MAX: int := 0xFFFF_FFFF
  const ULONGLONG_RANGE: int := 0x1_0000_0000_0000_0000

  /** Movement aggressiveness used when none is configured. */
  const MOVEMENT_DEFAULT_AGGRESSIVENESS: int := 5

  /** The dimensions and mine count of the three standard levels. */
  datatype LevelSize = LevelSize(height: int, width: int, mines: int)

  function StandardLevel(level: int): (s: Option<LevelSize>)
    ensures s.Some? <==> level in {LEVEL_BEGINNER, LEVEL_INTERMEDIATE, LEVEL_EXPERT}
    ensures s.Some? ==> 0 < s.value.mines < s.value.height * s.value.width
    ensures s.Some? ==> 0 < s.value.height <= MAX_HEIGHT && 0 < s.value.width <= MAX_WIDTH
  {
    if level == LEVEL_BEGINNER then Some(LevelSize(BEGINNER_HEIGHT, BEGINNER_WIDTH, BEGINNER_MINES))
    else if level == LEVEL_INTERMEDIATE then Some(LevelSize(INTERMEDIATE_HEIGHT, INTERMEDIATE_WIDTH, INTERMEDIATE_MINES))
    else if level == LEVEL_EXPERT then Some(LevelSize(EXPERT_HEIGHT, EXPERT_WIDTH, EXPERT_MINES))
    else None
  }

  // ---------------------------------------------------------------
  // Codes
  // ---------------------------------------------------------------

  /** The status of one tile; the source stores these as the codes 0..3. */
  datatype TileStatus = Normal | Revealed | Flag | Held

  /** The code of each status; distinct statuses get distinct codes. */
  function StatusCode(s: TileStatus): (c: int)
    ensures 0 <= c <= 3
    ensures c == 0 <==> s == Normal
    ensures c == 1 <==> s == Revealed
    ensures c == 2 <==> s == Flag
    ensures c == 3 <==> s == Held
  {
    match s
    case Normal => 0
    case Revealed => 1
    case Flag => 2
    case Held => 3
  }

  /** The error codes that the modelled part of the game can return. */
  datatype MineError = Success | ErrParameter | ErrRandNumber

  // ---------------------------------------------------------------
  // Menu settings (the global, persisted settings; read-only here)
  // ---------------------------------------------------------------

  datatype MenuSettings = MenuSettings(
    gameLevel: int,
    customHeight: int,
    customWidth: int,
    customMines: int,
    beginnerTime: int,
    intermediateTime: int,
    expertTime: int,
    wrapHorz: bool,
    wrapVert: bool,
    useMovement: bool,
    movementFreq: int,
    movementAggressive: int,
    numberImages: int)
  {
    /** What the custom-board dialog and the movement dialog guarantee. */
    predicate Valid() {
      && LEVEL_BEGINNER <= gameLevel <= LEVEL_CUSTOM
      && 9 <= customHeight <= MAX_HEIGHT
      && 9 <= customWidth <= MAX_WIDTH
      && 10 <= customMines <= (customHeight - 1) * (customWidth - 1)
      && 1 <= movementAggressive <= 10
    }
  }

  // ---------------------------------------------------------------
  // Board geometry: the index macro and the wrap rule
  // ---------------------------------------------------------------

  /** C's `%` on signed operands, which truncates toward zero. */
  function CRem(a: int, b: int): (r: int)
    requires b > 0
    ensures a >= 0 ==> r == a % b
    ensures -b < r < b
  {
    if a >= 0 then a % b else -((-a) % b)
  }

  /**
   * The wrap rule of every neighbour loop: a coordinate one step below 0
   * becomes dim-1 and one step at or beyond dim becomes 0 when wrapping is
   * on; otherwise that neighbour is skipped (None).
   */
  function Wrap(p: int, dim: int, wrap: bool): (r: Option<int>)
    requires dim > 0
    ensures r.Some? ==> 0 <= r.value < dim
    ensures r.Some? && !wrap ==> r.value == p
  {
    if p < 0 then (if wrap then Some(dim - 1) else None)
    else if p > dim - 1 then (if wrap then Some(0) else None)
    else Some(p)
  }

  /** For a coordinate one step from the board, the wrap rule is arithmetic modulo dim when wrapping is on and a bounds check when it is off. */
  lemma WrapIsModular(p: int, dim: int, wrap: bool)
    requires dim > 0 && -1 <= p <= dim
    ensures wrap ==> Wrap(p, dim, wrap) == Some(p % dim)
    ensures !wrap ==> (Wrap(p, dim, wrap).Some? <==> 0 <= p < dim)
    ensures !wrap && Wrap(p, dim, wrap).Some? ==> Wrap(p, dim, wrap).value == p
    ensures Wrap(p, dim, wrap).Some? ==> 0 <= Wrap(p, dim, wrap).value < dim
  {
    if p == dim {
      assert p % dim == 0;
    } else if p == -1 {
      assert p % dim == dim - 1;
    } else {
      assert p % dim == p;
    }
  }

  /** The dimensions, scroll shifts and wrap flags that fix how logical cells map to storage. */
  datatype Layout = Layout(width: int, height: int, horzShift: int, vertShift: int, wrapHorz: bool, wrapVert: bool)
  {
    predicate Valid() {
      0 < width && 0 < height && 0 <= horzShift < width && 0 <= vertShift < height
    }

    predicate InGrid(x: int, y: int) {
      0 <= x < width && 0 <= y < height
    }

    function Size(): int {
      width * height
    }

    /** MINE_INDEX(x, y): the storage index of logical cell (x, y), shifted by the scroll offsets. */
    function MineIndex(x: int, y: int): int
      requires width > 0 && height > 0
    {
      CRem(x + horzShift, width) + CRem(y + vertShift, height) * width
    }

    /** MINE_INDEX on an in-grid cell, with the bound that makes it a valid array index. */
    function Index(x: int, y: int): (i: int)
      requires Valid() && InGrid(x, y)
      ensures 0 <= i < Size()
      ensures i == MineIndex(x, y)
    {
      IndexInBounds(x, y);
      MineIndex(x, y)
    }

    /** The logical cell stored at storage index i (the inverse of Index). */
    function CellOf(i: int): (c: (int, int))
      requires Valid() && 0 <= i < Size()
      ensures InGrid(c.0, c.1)
    {
      ((i % width - horzShift) % width, (i / width - vertShift) % height)
    }

    /** For in-grid cells and in-range shifts, MINE_INDEX lies in [0, width*height). */
    lemma IndexInBounds(x: int, y: int)
      requires Valid() && InGrid(x, y)
      ensures 0 <= MineIndex(x, y) < Size()
    {
      var a := (x + horzShift) % width;
      var b := (y + vertShift) % height;
      assert MineIndex(x, y) == a + b * width;
      MulBelow(b, height, width);
    }

    /** For fixed shifts, MINE_INDEX is injective on the grid. */
    lemma IndexInjective(x1: int, y1: int, x2: int, y2: int)
      requires Valid() && InGrid(x1, y1) && InGrid(x2, y2)
      requires MineIndex(x1, y1) == MineIndex(x2, y2)
      ensures x1 == x2 && y1 == y2
    {
      var a1, b1 := (x1 + horzShift) % width, (y1 + vertShift) % height;
      var a2, b2 := (x2 + horzShift) % width, (y2 + vertShift) % height;
      DigitsUnique(a1, b1, a2, b2, width);
      ShiftedUnique(x1, x2, horzShift, width);
      ShiftedUnique(y1, y2, vertShift, height);
    }

    /** CellOf inverts MINE_INDEX: every storage index is the index of exactly one cell. */
    lemma IndexCellOf(i: int)
      requires Valid() && 0 <= i < Size()
      ensures Index(CellOf(i).0, CellOf(i).1) == i
    {
      var c := CellOf(i);
      var q, r := i / width, i % width;
      assert i == q * width + r;
      assert 0 <= q < height by {
        if q >= height {
          MulMono(height, q, width);
        }
      }
      ShiftBack(r, horzShift, width);
      ShiftBack(q, vertShift, height);
      assert (c.0 + horzShift) % width == r;
      assert (c.1 + vertShift) % height == q;
    }

    /** MINE_INDEX followed by CellOf gives back the cell. */
    lemma CellOfIndex(x: int, y: int)
      requires Valid() && InGrid(x, y)
      ensures CellOf(Index(x, y)) == (x, y)
    {
      var i := Index(x, y);
      IndexCellOf(i);
      var c := CellOf(i);
      IndexInjective(c.0, c.1, x, y);
    }

    /** With both shifts 0, MINE_INDEX is the row-major index x + y*width. */
    lemma IndexWithoutShift(x: int, y: int)
      requires Valid() && InGrid(x, y) && horzShift == 0 && vertShift == 0
      ensures Index(x, y) == x + y * width
    {
      ModBelowTwice(x, width);
      ModBelowTwice(y, height);
    }

    /** The neighbour of (x, y) at offset (dx, dy) under the wrap rule on both axes. */
    function Neighbour(x: int, y: int, dx: int, dy: int): (n: Option<(int, int)>)
      requires Valid()
      ensures n.Some? ==> InGrid(n.value.0, n.value.1)
    {
      match Wrap(x + dx, width, wrapHorz)
      case None => None
      case Some(nx) =>
        match Wrap(y + dy, height, wrapVert)
        case None => None
        case Some(ny) => Some((nx, ny))
    }

    /** cx is one of the columns x-1, x, x+1 after wrapping. */
    predicate InColumnBand(x: int, cx: int)
      requires Valid()
    {
      Wrap(x - 1, width, wrapHorz) == Some(cx) || Wrap(x, width, wrapHorz) == Some(cx) || Wrap(x + 1, width, wrapHorz) == Some(cx)
    }

    /** cy is one of the rows y-1, y, y+1 after wrapping. */
    predicate InRowBand(y: int, cy: int)
      requires Valid()
    {
      Wrap(y - 1, height, wrapVert) == Some(cy) || Wrap(y, height, wrapVert) == Some(cy) || Wrap(y + 1, height, wrapVert) == Some(cy)
    }

    /** (cx, cy) is in the 3x3 block around (x, y) that the neighbour loops visit (the centre included). */
    predicate InBlock(x: int, y: int, cx: int, cy: int)
      requires Valid()
    {
      InColumnBand(x, cx) && InRowBand(y, cy)
    }
  }

  // ---------------------------------------------------------------
  // Arithmetic helpers for the index lemmas
  // ---------------------------------------------------------------

  lemma MulMono(a: int, b: int, c: int)
    requires a <= b && 0 <= c
    ensures a * c <= b * c
  {
    assert b * c - a * c == (b - a) * c;
  }

  lemma MulBelow(b: int, h: int, w: int)
    requires 0 <= b < h && 0 < w
    ensures b * w <= h * w - w
  {
    MulMono(b, h - 1, w);
  }

  lemma DigitsUnique(a1: int, b1: int, a2: int, b2: int, w: int)
    requires 0 < w && 0 <= a1 < w && 0 <= a2 < w && 0 <= b1 && 0 <= b2
    requires a1 + b1 * w == a2 + b2 * w
    ensures a1 == a2 && b1 == b2
  {
    if b1 < b2 {
      MulMono(b1 + 1, b2, w);
    } else if b2 < b1 {
      MulMono(b2 + 1, b1, w);
    }
  }

  lemma ShiftedUnique(x1: int, x2: int, s: int, w: int)
    requires 0 <= x1 < w && 0 <= x2 < w && 0 <= s < w
    requires (x1 + s) % w == (x2 + s) % w
    ensures x1 == x2
  {
    ModBelowTwice(x1 + s, w);
    ModBelowTwice(x2 + s, w);
  }

  lemma ModBelowTwice(a: int, w: int)
    requires 0 < w && 0 <= a < 2 * w
    ensures a % w == if a < w then a else a - w
  {
  }

  lemma ShiftBack(r: int, s: int, w: int)
    requires 0 <= r < w && 0 <= s < w
    ensures ((r - s) % w + s) % w == r
  {
    if r >= s {
      ModBelowTwice(r - s, w);
      ModBelowTwice(r, w);
    } else {
      ModBelowTwice(r - s + w, w);
      assert (r - s) % w == (r - s + w) % w;
      ModBelowTwice(r + w, w);
    }
  }

  // ---------------------------------------------------------------
  // The game data (the gameData structure)
  // ---------------------------------------------------------------

  /** A board value is the mine value or a neighbour count 0..8. */
  predicate IsBoardValue(v: int) {
    v == BOMB || 0 <= v <= 8
  }

  class GameData {
    var height: int
    var width: int
    var mines: int
    var numFlagged: int
    var numUncovered: int
    var gameBoard: array<int>
    var tileStatus: array<TileStatus>
    var time: int
    var gameStartTime: int
    var prevGridX: int
    var prevGridY: int
    var horzShift: int
    var vertShift: int
    var gameStarted: bool
    var gameOver: bool
    var gameWon: bool
    var leftDown: bool
    var rightDown: bool

    /** The layout of the current board under the menu's wrap flags. */
    function Lay(menu: MenuSettings): Layout
      reads this`width, this`height, this`horzShift, this`vertShift
    {
      Layout(width, height, horzShift, vertShift, menu.wrapHorz, menu.wrapVert)
    }

    /** The shape the rest of the game relies on. */
    ghost predicate Valid()
      reads this, gameBoard
    {
      && 0 < width <= MAX_WIDTH && 0 < height <= MAX_HEIGHT
      && 0 <= mines <= width * height
      && gameBoard.Length == width * height
      && tileStatus.Length == width * height
      && 0 <= horzShift < width && 0 <= vertShift < height
      && ((prevGridX == -1 && prevGridY == -1) || (0 <= prevGridX < width && 0 <= prevGridY < height))
      && 0 <= numFlagged <= UINT_MAX
      && 0 <= numUncovered
      && 0 <= time <= MAX_TIME
      && 0 <= gameStartTime < ULONGLONG_RANGE
      && (forall i :: 0 <= i < gameBoard.Length ==> IsBoardValue(gameBoard[i]))
    }

    /** Valid() pins down the layout's validity. */
    lemma LayValid(menu: MenuSettings)
      requires Valid()
      ensures Lay(menu).Valid() && Lay(menu).Size() == gameBoard.Length
    {
    }

    /** The number of non-mine tiles, which numUncovered reaches when the game is won. */
    function SafeTiles(): int
      reads this`height, this`width, this`mines
    {
      height * width - mines
    }

    /** The board never holds more tiles (hence mines) than a DWORD counter can count. */
    lemma AreaBound()
      requires Valid()
      ensures width * height <= MAX_WIDTH * MAX_HEIGHT
      ensures mines <= UINT_MAX
    {
      MulMono(width, MAX_WIDTH, height);
      MulMono(height, MAX_HEIGHT, MAX_WIDTH);
    }
  }
}
