/**
 * Moving mines (MineMovement_ProcessMovement). On each movement tick the
 * covered mines are visited column by column in a random column order and,
 * within a column, in a random row order; each covered mine tries the first
 * few of a random order of the eight directions, and the first direction
 * that lands on a covered tile without a mine moves the mine there. A
 * budget of mines (a tenth of the mines per aggressiveness step) stops the
 * search early. After a move the numbers around both tiles are recomputed.
 */
module MineMovement {
  import opened MineDefs
  import opened BoardSpec
  import opened Mine
  import opened MineRandom

  // ---------------------------------------------------------------
  // The parameters derived from the aggressiveness setting
  // ---------------------------------------------------------------

  /** How many directions each mine tries: 2, 4, 6 or 8 as aggressiveness grows. */
  function DirectionsToCheck(aggressive: int): (n: int)
    requires 1 <= aggressive <= 10
    ensures 2 <= n <= 8 && n % 2 == 0
    ensures n == 8 <==> aggressive >= 9
    ensures n == 2 <==> aggressive <= 2
  {
    if aggressive <= 2 then 2
    else if aggressive <= 5 then 4
    else if aggressive <= 8 then 6
    else 8
  }

  /** A more aggressive setting never tries fewer directions. */
  lemma DirectionsMonotone(a1: int, a2: int)
    requires 1 <= a1 <= a2 <= 10
    ensures DirectionsToCheck(a1) <= DirectionsToCheck(a2)
  {
  }

  /** The mine budget: mines * aggressiveness / 10 in unsigned 32-bit arithmetic. */
  function MinesToCheck(mines: int, aggressive: int): (n: int)
    requires 0 <= mines && 1 <= aggressive <= 10
    ensures 0 <= n
    ensures mines * aggressive <= UINT_MAX ==> n <= mines && 10 * n <= mines * aggressive < 10 * n + 10
  {
    ((mines * aggressive) % (UINT_MAX + 1)) / 10
  }

  /** On any board the game allows the product cannot wrap, and full aggressiveness checks every mine. */
  lemma MinesToCheckOnBoard(mines: int, aggressive: int)
    requires 0 <= mines <= MAX_WIDTH * MAX_HEIGHT && 1 <= aggressive <= 10
    ensures MinesToCheck(mines, aggressive) == mines * aggressive / 10 <= mines
    ensures aggressive == 10 ==> MinesToCheck(mines, aggressive) == mines
  {
    assert mines * aggressive <= mines * 10 <= UINT_MAX;
  }

  // ---------------------------------------------------------------
  // Directions
  // ---------------------------------------------------------------

  /** The step of direction d: 0..2 the row above (left to right), 3 left, 4 right, 5..7 the row below. */
  function Offset(d: int): (o: (int, int))
    requires 0 <= d < 8
    ensures -1 <= o.0 <= 1 && -1 <= o.1 <= 1 && o != (0, 0)
  {
    if d == 0 then (-1, -1)
    else if d == 1 then (0, -1)
    else if d == 2 then (1, -1)
    else if d == 3 then (-1, 0)
    else if d == 4 then (1, 0)
    else if d == 5 then (-1, 1)
    else if d == 6 then (0, 1)
    else (1, 1)
  }

  /** The eight directions are exactly the eight neighbours, each once. */
  lemma OffsetsAreTheNeighbours()
    ensures forall d1, d2 :: 0 <= d1 < 8 && 0 <= d2 < 8 && Offset(d1) == Offset(d2) ==> d1 == d2
    ensures forall dx, dy :: -1 <= dx <= 1 && -1 <= dy <= 1 && (dx, dy) != (0, 0) ==>
      exists d :: 0 <= d < 8 && Offset(d) == (dx, dy)
  {
    forall dx, dy | -1 <= dx <= 1 && -1 <= dy <= 1 && (dx, dy) != (0, 0)
      ensures exists d :: 0 <= d < 8 && Offset(d) == (dx, dy)
    {
      var d := if dy == -1 then dx + 1 else if dy == 0 then (if dx == -1 then 3 else 4) else dx + 6;
      assert Offset(d) == (dx, dy);
    }
  }

  /**
   * The tile direction d leads to from cur: x is wrapped (or the direction
   * skipped) first, then y, exactly as the count of neighbours does it.
   */
  function Destination(l: Layout, cur: (int, int), d: int): (n: Option<(int, int)>)
    requires l.Valid() && 0 <= d < 8
    ensures n.Some? ==> l.InGrid(n.value.0, n.value.1)
  {
    l.Neighbour(cur.0, cur.1, Offset(d).0, Offset(d).1)
  }

  // ---------------------------------------------------------------
  // The search for a mine to move
  // ---------------------------------------------------------------

  /** What the search looks at: the board, the statuses, the three random orders and the two limits. */
  datatype Scan = Scan(lay: Layout, board: seq<int>, status: seq<TileStatus>,
                       xOrder: seq<int>, yOrder: seq<int>, moveOrder: seq<int>,
                       dirs: int, toCheck: int)
  {
    predicate Valid() {
      && lay.Valid() && |board| == lay.Size() && |status| == lay.Size()
      && |xOrder| == lay.width && (forall i :: 0 <= i < |xOrder| ==> 0 <= xOrder[i] < lay.width)
      && |yOrder| == lay.height && (forall j :: 0 <= j < |yOrder| ==> 0 <= yOrder[j] < lay.height)
      && |moveOrder| == 8 && (forall k :: 0 <= k < 8 ==> 0 <= moveOrder[k] < 8)
      && 0 <= dirs <= 8
    }
  }

  /** Where the search stands: still going with a count of mines checked, a move found, or the budget spent. */
  datatype Outcome = Searching(checked: nat) | Move(src: (int, int), dst: (int, int)) | BudgetSpent

  /** A covered mine: the only kind that may move. */
  predicate Movable(sc: Scan, c: (int, int))
    requires sc.Valid()
  {
    sc.lay.InGrid(c.0, c.1) && sc.board[sc.lay.Index(c.0, c.1)] == BOMB && sc.status[sc.lay.Index(c.0, c.1)] == Normal
  }

  /** A covered tile without a mine: the only kind a mine may move to. */
  predicate Free(sc: Scan, c: (int, int))
    requires sc.Valid()
  {
    sc.lay.InGrid(c.0, c.1) && sc.board[sc.lay.Index(c.0, c.1)] != BOMB && sc.status[sc.lay.Index(c.0, c.1)] == Normal
  }

  /** Slot k of the direction order leads from c to a free tile. */
  predicate OpenSlot(sc: Scan, c: (int, int), k: int)
    requires sc.Valid() && 0 <= k < 8
  {
    var n := Destination(sc.lay, c, sc.moveOrder[k]);
    n.Some? && Free(sc, n.value)
  }

  /** A move the search may make: a covered mine to a free tile one of the tried directions away. */
  predicate LegalMove(sc: Scan, src: (int, int), dst: (int, int))
    requires sc.Valid()
  {
    Movable(sc, src) && Free(sc, dst) &&
    exists k :: 0 <= k < sc.dirs && Destination(sc.lay, src, sc.moveOrder[k]) == Some(dst)
  }

  /** The mine at c has somewhere to go in the tried directions. */
  predicate CanMove(sc: Scan, c: (int, int))
    requires sc.Valid()
  {
    Movable(sc, c) && exists k :: 0 <= k < sc.dirs && OpenSlot(sc, c, k)
  }

  /**
   * The direction loop for the mine at cur from slot kx on: a skipped
   * direction goes on to the next; a free destination is the move; a
   * destination that is not free stops the search once the budget is spent.
   */
  function TryDirections(sc: Scan, cur: (int, int), kx: int, checked: nat): Outcome
    requires sc.Valid() && 0 <= kx <= sc.dirs
    decreases sc.dirs - kx
  {
    if kx == sc.dirs then Searching(checked)
    else match Destination(sc.lay, cur, sc.moveOrder[kx])
      case None => TryDirections(sc, cur, kx + 1, checked)
      case Some(n) =>
        if Free(sc, n) then Move(cur, n)
        else if checked >= sc.toCheck then BudgetSpent
        else TryDirections(sc, cur, kx + 1, checked)
  }

  /** One tile of the scan: a safe tile is passed over, every mine is counted, a covered mine tries its directions. */
  function VisitTile(sc: Scan, cur: (int, int), checked: nat): Outcome
    requires sc.Valid() && sc.lay.InGrid(cur.0, cur.1)
  {
    var i := sc.lay.Index(cur.0, cur.1);
    if sc.board[i] != BOMB then Searching(checked)
    else if sc.status[i] != Normal then Searching(checked + 1)
    else TryDirections(sc, cur, 0, checked + 1)
  }

  /** The rows jx.. of column slot ix, in the random row order. */
  function ScanRows(sc: Scan, ix: int, jx: int, checked: nat): Outcome
    requires sc.Valid() && 0 <= ix < sc.lay.width && 0 <= jx <= sc.lay.height
    decreases sc.lay.height - jx
  {
    if jx == sc.lay.height then Searching(checked)
    else match VisitTile(sc, (sc.xOrder[ix], sc.yOrder[jx]), checked)
      case Searching(c) => ScanRows(sc, ix, jx + 1, c)
      case o => o
  }

  /** The column slots ix.. in the random column order. */
  function ScanCols(sc: Scan, ix: int, checked: nat): Outcome
    requires sc.Valid() && 0 <= ix <= sc.lay.width
    decreases sc.lay.width - ix
  {
    if ix == sc.lay.width then Searching(checked)
    else match ScanRows(sc, ix, 0, checked)
      case Searching(c) => ScanCols(sc, ix + 1, c)
      case o => o
  }

  /** The outcome of the whole search; a move it finds is always a legal one. */
  function FindMove(sc: Scan): (o: Outcome)
    requires sc.Valid()
    ensures o.Move? ==> LegalMove(sc, o.src, o.dst)
  {
    ScanColsSound(sc, 0, 0);
    ScanCols(sc, 0, 0)
  }

  // ---------------------------------------------------------------
  // What the search finds
  // ---------------------------------------------------------------

  /** The direction loop moves the mine at cur to a free tile it tried, or reports that no tried direction was open. */
  lemma {:induction false} TryDirectionsSound(sc: Scan, cur: (int, int), kx: int, checked: nat)
    requires sc.Valid() && 0 <= kx <= sc.dirs
    ensures var o := TryDirections(sc, cur, kx, checked);
      && (o.Move? ==>
            o.src == cur && Free(sc, o.dst) &&
            exists k :: kx <= k < sc.dirs && Destination(sc.lay, cur, sc.moveOrder[k]) == Some(o.dst))
      && (o.Searching? ==> o.checked == checked && forall k :: kx <= k < sc.dirs ==> !OpenSlot(sc, cur, k))
      && (o.BudgetSpent? ==> checked >= sc.toCheck)
    decreases sc.dirs - kx
  {
    if kx < sc.dirs {
      TryDirectionsSound(sc, cur, kx + 1, checked);
      var o := TryDirections(sc, cur, kx, checked);
      if o.Move? && Destination(sc.lay, cur, sc.moveOrder[kx]) == Some(o.dst) {
        assert kx <= kx < sc.dirs;
      }
    }
  }

  /** A tile the scan visits yields a legal move from it, or it cannot move. */
  lemma VisitTileSound(sc: Scan, cur: (int, int), checked: nat)
    requires sc.Valid() && sc.lay.InGrid(cur.0, cur.1)
    ensures var o := VisitTile(sc, cur, checked);
      && (o.Move? ==> o.src == cur && LegalMove(sc, cur, o.dst))
      && (o.Searching? ==> !CanMove(sc, cur))
      && (o.BudgetSpent? ==> checked + 1 >= sc.toCheck)
  {
    TryDirectionsSound(sc, cur, 0, checked + 1);
  }

  /** The rows of one column yield a legal move, or none of their tiles can move. */
  lemma {:induction false} ScanRowsSound(sc: Scan, ix: int, jx: int, checked: nat)
    requires sc.Valid() && 0 <= ix < sc.lay.width && 0 <= jx <= sc.lay.height
    ensures var o := ScanRows(sc, ix, jx, checked);
      && (o.Move? ==> LegalMove(sc, o.src, o.dst))
      && (o.Searching? ==> forall j :: jx <= j < sc.lay.height ==> !CanMove(sc, (sc.xOrder[ix], sc.yOrder[j])))
    decreases sc.lay.height - jx
  {
    if jx < sc.lay.height {
      var v := VisitTile(sc, (sc.xOrder[ix], sc.yOrder[jx]), checked);
      VisitTileSound(sc, (sc.xOrder[ix], sc.yOrder[jx]), checked);
      if v.Searching? {
        ScanRowsSound(sc, ix, jx + 1, v.checked);
      }
    }
  }

  /** The columns from slot ix on yield a legal move, or none of their tiles can move. */
  lemma {:induction false} ScanColsSound(sc: Scan, ix: int, checked: nat)
    requires sc.Valid() && 0 <= ix <= sc.lay.width
    ensures var o := ScanCols(sc, ix, checked);
      && (o.Move? ==> LegalMove(sc, o.src, o.dst))
      && (o.Searching? ==> forall i, j :: ix <= i < sc.lay.width && 0 <= j < sc.lay.height ==>
            !CanMove(sc, (sc.xOrder[i], sc.yOrder[j])))
    decreases sc.lay.width - ix
  {
    if ix < sc.lay.width {
      var r := ScanRows(sc, ix, 0, checked);
      ScanRowsSound(sc, ix, 0, checked);
      if r.Searching? {
        ScanColsSound(sc, ix + 1, r.checked);
      }
    }
  }

  /** A value of 0..n-1 occurs in any permutation of 0..n-1. */
  lemma InPermutation(r: seq<int>, n: nat, v: int)
    requires multiset(r) == multiset(Identity(n)) && 0 <= v < n
    ensures exists i :: 0 <= i < |r| && r[i] == v
  {
    assert Identity(n)[v] == v;
    assert v in multiset(Identity(n));
    assert v in r;
  }

  /**
   * When the search runs through the whole board without spending its
   * budget, no covered mine anywhere can move.
   */
  lemma FindMoveSound(sc: Scan)
    requires sc.Valid()
    requires multiset(sc.xOrder) == multiset(Identity(sc.lay.width))
    requires multiset(sc.yOrder) == multiset(Identity(sc.lay.height))
    ensures FindMove(sc).Searching? ==> forall x, y :: sc.lay.InGrid(x, y) ==> !CanMove(sc, (x, y))
  {
    ScanColsSound(sc, 0, 0);
    if FindMove(sc).Searching? {
      forall x, y | sc.lay.InGrid(x, y)
        ensures !CanMove(sc, (x, y))
      {
        InPermutation(sc.xOrder, sc.lay.width, x);
        InPermutation(sc.yOrder, sc.lay.height, y);
        var i :| 0 <= i < |sc.xOrder| && sc.xOrder[i] == x;
        var j :| 0 <= j < |sc.yOrder| && sc.yOrder[j] == y;
        assert !CanMove(sc, (sc.xOrder[i], sc.yOrder[j]));
      }
    }
  }

  // ---------------------------------------------------------------
  // The move and the recount
  // ---------------------------------------------------------------

  function Max(a: int, b: int): int {
    if a < b then b else a
  }

  /** With wrapping on, the tiles around the two ends reach past an edge of the board. */
  predicate CrossesEdge(l: Layout, src: (int, int), dst: (int, int)) {
    || (l.wrapHorz && (Min(src.0 - 1, dst.0 - 1) < 0 || Max(src.0 + 1, dst.0 + 1) > l.width - 1))
    || (l.wrapVert && (Min(src.1 - 1, dst.1 - 1) < 0 || Max(src.1 + 1, dst.1 + 1) > l.height - 1))
  }

  /**
   * The rectangle renumbered after a move: the whole board when the
   * neighbourhoods wrap across an edge, otherwise the bounding box of the
   * two 3x3 blocks clipped to the board.
   */
  function RecountRect(l: Layout, src: (int, int), dst: (int, int)): (r: (int, int, int, int))
    requires l.Valid()
  {
    if CrossesEdge(l, src, dst) then (0, l.width - 1, 0, l.height - 1)
    else (Max(Min(src.0 - 1, dst.0 - 1), 0), Min(Max(src.0 + 1, dst.0 + 1), l.width - 1),
          Max(Min(src.1 - 1, dst.1 - 1), 0), Min(Max(src.1 + 1, dst.1 + 1), l.height - 1))
  }

  /** The board right after the mine is taken off src and put on dst, before any renumbering. */
  function MovedBoard(l: Layout, b: seq<int>, src: (int, int), dst: (int, int)): (r: seq<int>)
    requires l.Valid() && |b| == l.Size() && l.InGrid(src.0, src.1) && l.InGrid(dst.0, dst.1)
    ensures |r| == |b|
  {
    b[l.Index(src.0, src.1) := 0][l.Index(dst.0, dst.1) := BOMB]
  }

  /** The board after a move and its recount. */
  function AfterMove(l: Layout, b: seq<int>, src: (int, int), dst: (int, int)): (r: seq<int>)
    requires l.Valid() && |b| == l.Size() && l.InGrid(src.0, src.1) && l.InGrid(dst.0, dst.1)
    ensures |r| == |b|
  {
    var rect := RecountRect(l, src, dst);
    Renumber(l, MovedBoard(l, b, src, dst), rect.0, rect.1, rect.2, rect.3)
  }

  /** Along one axis, a neighbour that does not come from wrapping across the edge is at most one step away. */
  lemma WrapNear(v: int, d: int, dim: int, wrap: bool, p: int)
    requires dim > 0 && 0 <= v < dim && -1 <= d <= 1 && Wrap(v + d, dim, wrap) == Some(p)
    requires wrap ==> 1 <= p <= dim - 2
    ensures p - 1 <= v <= p + 1
  {
  }

  /** A tile outside the recount rectangle has neither end of the move among its neighbours. */
  lemma OutsideRectUnaffected(l: Layout, src: (int, int), dst: (int, int), x: int, y: int, dx: int, dy: int)
    requires l.Valid() && l.InGrid(src.0, src.1) && l.InGrid(dst.0, dst.1) && l.InGrid(x, y)
    requires -1 <= dx <= 1 && -1 <= dy <= 1
    requires var r := RecountRect(l, src, dst); !InRect(x, y, r.0, r.1, r.2, r.3)
    requires l.Neighbour(x, y, dx, dy).Some?
    ensures l.Neighbour(x, y, dx, dy).value != src && l.Neighbour(x, y, dx, dy).value != dst
  {
    var n := l.Neighbour(x, y, dx, dy).value;
    assert Wrap(x + dx, l.width, l.wrapHorz) == Some(n.0);
    assert Wrap(y + dy, l.height, l.wrapVert) == Some(n.1);
    if n == src || n == dst {
      WrapNear(x, dx, l.width, l.wrapHorz, n.0);
      WrapNear(y, dy, l.height, l.wrapVert, n.1);
    }
  }

  /** The recount rectangle lies on the board and holds both ends of the move. */
  lemma RecountHoldsEnds(l: Layout, src: (int, int), dst: (int, int))
    requires l.Valid() && l.InGrid(src.0, src.1) && l.InGrid(dst.0, dst.1)
    ensures var r := RecountRect(l, src, dst);
      && 0 <= r.0 <= r.1 < l.width && 0 <= r.2 <= r.3 < l.height
      && InRect(src.0, src.1, r.0, r.1, r.2, r.3) && InRect(dst.0, dst.1, r.0, r.1, r.2, r.3)
  {
  }

  /** The recount rectangle holds every tile next to either end of the move. */
  lemma RecountCovers(l: Layout, src: (int, int), dst: (int, int))
    requires l.Valid() && l.InGrid(src.0, src.1) && l.InGrid(dst.0, dst.1)
    ensures var r := RecountRect(l, src, dst);
      forall x, y, dx, dy ::
           (l.InGrid(x, y) && -1 <= dx <= 1 && -1 <= dy <= 1 && l.Neighbour(x, y, dx, dy) in {Some(src), Some(dst)})
           ==> InRect(x, y, r.0, r.1, r.2, r.3)
  {
    var r := RecountRect(l, src, dst);
    forall x, y, dx, dy | l.InGrid(x, y) && -1 <= dx <= 1 && -1 <= dy <= 1 &&
        l.Neighbour(x, y, dx, dy) in {Some(src), Some(dst)}
      ensures InRect(x, y, r.0, r.1, r.2, r.3)
    {
      if !InRect(x, y, r.0, r.1, r.2, r.3) {
        OutsideRectUnaffected(l, src, dst, x, y, dx, dy);
      }
    }
  }

  /** The move keeps the number of mines: src loses its mine, dst gains one, every other tile keeps its own. */
  lemma MoveKeepsMines(l: Layout, b: seq<int>, src: (int, int), dst: (int, int))
    requires l.Valid() && |b| == l.Size() && l.InGrid(src.0, src.1) && l.InGrid(dst.0, dst.1)
    requires b[l.Index(src.0, src.1)] == BOMB && b[l.Index(dst.0, dst.1)] != BOMB
    ensures var r := AfterMove(l, b, src, dst);
      && r[l.Index(src.0, src.1)] != BOMB && r[l.Index(dst.0, dst.1)] == BOMB
      && BombCount(r) == BombCount(b)
      && forall k :: 0 <= k < |b| && k != l.Index(src.0, src.1) && k != l.Index(dst.0, dst.1) ==>
           (r[k] == BOMB <==> b[k] == BOMB)
  {
    var si, di := l.Index(src.0, src.1), l.Index(dst.0, dst.1);
    var r := AfterMove(l, b, src, dst);
    var m := BombMask(b);
    assert BombMask(b[si := 0]) == m[si := false];
    CountUpdate(m, si, false);
    assert BombMask(MovedBoard(l, b, src, dst)) == m[si := false][di := true];
    CountUpdate(m[si := false], di, true);
    assert BombMask(r)[si] == BombMask(MovedBoard(l, b, src, dst))[si];
    assert BombMask(r)[di] == BombMask(MovedBoard(l, b, src, dst))[di];
    forall k | 0 <= k < |b| && k != si && k != di
      ensures r[k] == BOMB <==> b[k] == BOMB
    {
      assert BombMask(r)[k] == BombMask(MovedBoard(l, b, src, dst))[k];
    }
  }

  /** A tile outside the recount rectangle keeps its value, and its neighbours keep their mines. */
  lemma OutsideCellConsistent(l: Layout, b: seq<int>, src: (int, int), dst: (int, int), i: int)
    requires l.Valid() && |b| == l.Size() && l.InGrid(src.0, src.1) && l.InGrid(dst.0, dst.1)
    requires 0 <= i < |b| && ConsistentAt(l, b, i)
    requires var r := RecountRect(l, src, dst); !InRect(l.CellOf(i).0, l.CellOf(i).1, r.0, r.1, r.2, r.3)
    ensures |AfterMove(l, b, src, dst)| == |b| && ConsistentAt(l, AfterMove(l, b, src, dst), i)
  {
    var b1 := MovedBoard(l, b, src, dst);
    var r := AfterMove(l, b, src, dst);
    var c := l.CellOf(i);
    var si, di := l.Index(src.0, src.1), l.Index(dst.0, dst.1);
    RecountHoldsEnds(l, src, dst);
    l.CellOfIndex(src.0, src.1);
    l.CellOfIndex(dst.0, dst.1);
    assert i != si && i != di;
    assert r[i] == b1[i] == b[i];
    forall dx, dy | -1 <= dx <= 1 && -1 <= dy <= 1 && l.Neighbour(c.0, c.1, dx, dy).Some?
      ensures var n := l.Neighbour(c.0, c.1, dx, dy).value;
        BombMask(b1)[l.Index(n.0, n.1)] == BombMask(b)[l.Index(n.0, n.1)]
    {
      var n := l.Neighbour(c.0, c.1, dx, dy).value;
      OutsideRectUnaffected(l, src, dst, c.0, c.1, dx, dy);
      if l.Index(n.0, n.1) == si {
        l.IndexInjective(n.0, n.1, src.0, src.1);
      }
      if l.Index(n.0, n.1) == di {
        l.IndexInjective(n.0, n.1, dst.0, dst.1);
      }
    }
    BlockCountLocal(l, BombMask(b1), BombMask(b), c.0, c.1, true);
    assert BombMask(r) == BombMask(b1);
  }

  /** A tile inside the recount rectangle is recounted on a board with the same mines. */
  lemma InsideCellConsistent(l: Layout, b: seq<int>, src: (int, int), dst: (int, int), i: int)
    requires l.Valid() && |b| == l.Size() && l.InGrid(src.0, src.1) && l.InGrid(dst.0, dst.1)
    requires 0 <= i < |b|
    requires var r := RecountRect(l, src, dst); InRect(l.CellOf(i).0, l.CellOf(i).1, r.0, r.1, r.2, r.3)
    ensures |AfterMove(l, b, src, dst)| == |b| && ConsistentAt(l, AfterMove(l, b, src, dst), i)
  {
    var b1 := MovedBoard(l, b, src, dst);
    var rect := RecountRect(l, src, dst);
    var r := Renumber(l, b1, rect.0, rect.1, rect.2, rect.3);
    var c := l.CellOf(i);
    assert AfterMove(l, b, src, dst) == r;
    assert BombMask(r) == BombMask(b1);
    assert NeighbourMines(l, r, c.0, c.1) == NeighbourMines(l, b1, c.0, c.1);
    if r[i] != BOMB {
      assert BombMask(r)[i] == BombMask(b1)[i];
      assert r[i] == NeighbourMines(l, b1, c.0, c.1);
    }
  }

  /** After the move and its recount, a board whose numbers were right still has right numbers. */
  lemma MoveKeepsNumbersConsistent(l: Layout, b: seq<int>, src: (int, int), dst: (int, int))
    requires l.Valid() && |b| == l.Size() && l.InGrid(src.0, src.1) && l.InGrid(dst.0, dst.1)
    requires NumbersConsistent(l, b)
    ensures NumbersConsistent(l, AfterMove(l, b, src, dst))
  {
    if CrossesEdge(l, src, dst) {
      FullRenumberConsistent(l, MovedBoard(l, b, src, dst));
    } else {
      var rect := RecountRect(l, src, dst);
      forall i | 0 <= i < |b|
        ensures ConsistentAt(l, AfterMove(l, b, src, dst), i)
      {
        var c := l.CellOf(i);
        if InRect(c.0, c.1, rect.0, rect.1, rect.2, rect.3) {
          InsideCellConsistent(l, b, src, dst, i);
        } else {
          assert ConsistentAt(l, b, i);
          OutsideCellConsistent(l, b, src, dst, i);
        }
      }
    }
  }

  /** A move keeps every board value a mine or a count. */
  lemma MoveValues(l: Layout, b: seq<int>, src: (int, int), dst: (int, int))
    requires l.Valid() && |b| == l.Size() && l.InGrid(src.0, src.1) && l.InGrid(dst.0, dst.1)
    requires forall i :: 0 <= i < |b| ==> IsBoardValue(b[i])
    ensures forall i :: 0 <= i < |b| ==> IsBoardValue(AfterMove(l, b, src, dst)[i])
  {
    var rect := RecountRect(l, src, dst);
    RenumberValues(l, MovedBoard(l, b, src, dst), rect.0, rect.1, rect.2, rect.3);
  }

  /**
   * What a move found by the search does to the board: the mine leaves a
   * covered tile for a covered free one nearby, the number of mines stays
   * the same, and numbers that were right stay right.
   */
  lemma FoundMoveKeepsBoard(sc: Scan)
    requires sc.Valid()
    ensures var o := FindMove(sc);
      o.Move? ==>
        var r := AfterMove(sc.lay, sc.board, o.src, o.dst);
        && r[sc.lay.Index(o.src.0, o.src.1)] != BOMB && r[sc.lay.Index(o.dst.0, o.dst.1)] == BOMB
        && BombCount(r) == BombCount(sc.board)
        && (NumbersConsistent(sc.lay, sc.board) ==> NumbersConsistent(sc.lay, r))
  {
    var o := FindMove(sc);
    if o.Move? {
      MoveKeepsMines(sc.lay, sc.board, o.src, o.dst);
      if NumbersConsistent(sc.lay, sc.board) {
        MoveKeepsNumbersConsistent(sc.lay, sc.board, o.src, o.dst);
      }
    }
  }

  // ---------------------------------------------------------------
  // The random orders
  // ---------------------------------------------------------------

  /** The outcome of drawing the three orders: the first failing shuffle's status, or all three orders. */
  datatype Orders = Orders(status: MineError, xOrder: seq<int>, yOrder: seq<int>, moveOrder: seq<int>, rest: seq<RawSample>)

  /**
   * The column order (all w places shuffled), then the row order (all h),
   * then the first dirs places of the direction order; a generator error
   * stops at that shuffle.
   */
  function DrawOrders(samples: seq<RawSample>, w: nat, h: nat, dirs: nat): (o: Orders)
    requires w <= UINT_MAX && h <= UINT_MAX && dirs <= 8
    ensures |o.xOrder| == w && |o.yOrder| == h && |o.moveOrder| == 8
  {
    var rx := Shuffle(samples, Identity(w), 0, w);
    if rx.0 != Success then Orders(rx.0, rx.1, Identity(h), Identity(8), rx.2)
    else
      var ry := Shuffle(rx.2, Identity(h), 0, h);
      if ry.0 != Success then Orders(ry.0, rx.1, ry.1, Identity(8), ry.2)
      else
        var rm := Shuffle(ry.2, Identity(8), 0, dirs);
        Orders(rm.0, rx.1, ry.1, rm.1, rm.2)
  }

  /** Each order is a rearrangement of 0..n-1, so the scan visits every column and every row exactly once. */
  lemma OrdersArePermutations(samples: seq<RawSample>, w: nat, h: nat, dirs: nat)
    requires w <= UINT_MAX && h <= UINT_MAX && dirs <= 8
    ensures var o := DrawOrders(samples, w, h, dirs);
      && multiset(o.xOrder) == multiset(Identity(w))
      && multiset(o.yOrder) == multiset(Identity(h))
      && multiset(o.moveOrder) == multiset(Identity(8))
  {
    ShufflePermutes(samples, Identity(w), 0, w);
    var rx := Shuffle(samples, Identity(w), 0, w);
    ShufflePermutes(rx.2, Identity(h), 0, h);
    var ry := Shuffle(rx.2, Identity(h), 0, h);
    ShufflePermutes(ry.2, Identity(8), 0, dirs);
  }

  /** With the orders drawn, the search sees a well-formed scan. */
  lemma OrdersMakeValidScan(l: Layout, b: seq<int>, s: seq<TileStatus>, samples: seq<RawSample>, dirs: nat, toCheck: int)
    requires l.Valid() && |b| == l.Size() && |s| == l.Size() && l.width <= UINT_MAX && l.height <= UINT_MAX && dirs <= 8
    ensures var o := DrawOrders(samples, l.width, l.height, dirs);
      Scan(l, b, s, o.xOrder, o.yOrder, o.moveOrder, dirs, toCheck).Valid()
  {
    OrdersArePermutations(samples, l.width, l.height, dirs);
    var o := DrawOrders(samples, l.width, l.height, dirs);
    PermutationOfIdentity(o.xOrder, l.width);
    PermutationOfIdentity(o.yOrder, l.height);
    PermutationOfIdentity(o.moveOrder, 8);
  }

  /** The scan ProcessMovement runs on board b with the orders drawn from samples. */
  ghost function MovementScan(g: GameData, menu: MenuSettings, b: seq<int>, samples: seq<RawSample>): (sc: Scan)
    reads g, g.gameBoard, g.tileStatus
    requires g.Valid() && menu.Valid() && |b| == g.gameBoard.Length
    ensures sc.Valid()
  {
    var dirs := DirectionsToCheck(menu.movementAggressive);
    var toCheck := MinesToCheck(g.mines, menu.movementAggressive);
    var o := DrawOrders(samples, g.width, g.height, dirs);
    OrdersMakeValidScan(g.Lay(menu), b, g.tileStatus[..], samples, dirs, toCheck);
    Scan(g.Lay(menu), b, g.tileStatus[..], o.xOrder, o.yOrder, o.moveOrder, dirs, toCheck)
  }

  /** Allocate and fill the three order arrays, then shuffle each in turn. */
  method MakeOrders(rng: RandomSource, w: int, h: int, dirs: int)
    returns (status: MineError, xo: array<int>, yo: array<int>, mo: array<int>)
    requires 0 < w <= UINT_MAX && 0 < h <= UINT_MAX && 0 <= dirs <= 8
    modifies rng
    ensures fresh(xo) && fresh(yo) && fresh(mo)
    ensures var o := DrawOrders(old(rng.samples), w, h, dirs);
      status == o.status && rng.samples == o.rest && xo[..] == o.xOrder && yo[..] == o.yOrder && mo[..] == o.moveOrder
  {
    xo := IdentityArray(w);
    yo := IdentityArray(h);
    mo := IdentityArray(8);
    status := RandomPerm(rng, xo, w);
    if status != Success {
      return;
    }
    status := RandomPerm(rng, yo, h);
    if status != Success {
      return;
    }
    status := RandomPerm(rng, mo, dirs);
  }

  // ---------------------------------------------------------------
  // The search loops
  // ---------------------------------------------------------------

  /** The direction loop for the covered mine at (cx, cy), checked mines counted so far. */
  method TryMoves(board: array<int>, tiles: array<TileStatus>, mo: array<int>, l: Layout, dirs: int, toCheck: int,
                  cx: int, cy: int, checked: nat, ghost sc: Scan)
    returns (mineWillMove: bool, finished: bool, newX: int, newY: int)
    requires sc.Valid() && sc.lay == l && sc.board == board[..] && sc.status == tiles[..]
    requires sc.moveOrder == mo[..] && sc.dirs == dirs && sc.toCheck == toCheck
    ensures mineWillMove ==> finished && TryDirections(sc, (cx, cy), 0, checked) == Move((cx, cy), (newX, newY))
    ensures finished && !mineWillMove ==> TryDirections(sc, (cx, cy), 0, checked) == BudgetSpent
    ensures !finished ==> TryDirections(sc, (cx, cy), 0, checked) == Searching(checked)
  {
    mineWillMove, finished := false, false;
    newX, newY := -1, -1;
    for kx := 0 to dirs
      invariant TryDirections(sc, (cx, cy), 0, checked) == TryDirections(sc, (cx, cy), kx, checked)
    {
      var step := Offset(mo[kx]);
      var wx := Wrap(cx + step.0, l.width, l.wrapHorz);
      if wx.None? {
        continue;
      }
      var wy := Wrap(cy + step.1, l.height, l.wrapVert);
      if wy.None? {
        continue;
      }
      newX, newY := wx.value, wy.value;
      var idx := l.Index(newX, newY);
      if board[idx] != BOMB && tiles[idx] == Normal {
        mineWillMove, finished := true, true;
        break;
      }
      if checked >= toCheck {
        finished := true;
        break;
      }
    }
  }

  /** The row loop over column slot ix. */
  method ScanColumn(board: array<int>, tiles: array<TileStatus>, xo: array<int>, yo: array<int>, mo: array<int>,
                    l: Layout, dirs: int, toCheck: int, ix: int, checked: nat, ghost sc: Scan)
    returns (minesChecked: nat, mineWillMove: bool, finished: bool, currentX: int, currentY: int, newX: int, newY: int)
    requires sc.Valid() && sc.lay == l && sc.board == board[..] && sc.status == tiles[..]
    requires sc.xOrder == xo[..] && sc.yOrder == yo[..] && sc.moveOrder == mo[..] && sc.dirs == dirs && sc.toCheck == toCheck
    requires 0 <= ix < l.width
    ensures mineWillMove ==> finished && ScanRows(sc, ix, 0, checked) == Move((currentX, currentY), (newX, newY))
    ensures finished && !mineWillMove ==> ScanRows(sc, ix, 0, checked) == BudgetSpent
    ensures !finished ==> ScanRows(sc, ix, 0, checked) == Searching(minesChecked)
  {
    minesChecked, mineWillMove, finished := checked, false, false;
    currentX, currentY, newX, newY := -1, -1, -1, -1;
    for jx := 0 to l.height
      invariant ScanRows(sc, ix, 0, checked) == ScanRows(sc, ix, jx, minesChecked)
      invariant !mineWillMove && !finished
    {
      ScanRowsVisit(sc, ix, jx, minesChecked);
      var idx := l.Index(xo[ix], yo[jx]);
      if board[idx] != BOMB {
        continue;
      }
      minesChecked := minesChecked + 1;
      if tiles[idx] != Normal {
        continue;
      }
      currentX, currentY := xo[ix], yo[jx];
      mineWillMove, finished, newX, newY := TryMoves(board, tiles, mo, l, dirs, toCheck, currentX, currentY, minesChecked, sc);
      if finished {
        break;
      }
    }
  }

  /** One step of the row loop: the tile at slot jx either ends the column's search or hands on its count. */
  lemma ScanRowsVisit(sc: Scan, ix: int, jx: int, checked: nat)
    requires sc.Valid() && 0 <= ix < sc.lay.width && 0 <= jx < sc.lay.height
    ensures var v := VisitTile(sc, (sc.xOrder[ix], sc.yOrder[jx]), checked);
      ScanRows(sc, ix, jx, checked) == if v.Searching? then ScanRows(sc, ix, jx + 1, v.checked) else v
  {
  }

  /** One step of the column loop: the column at slot ix either ends the search or hands on its count. */
  lemma ScanColsVisit(sc: Scan, ix: int, checked: nat)
    requires sc.Valid() && 0 <= ix < sc.lay.width
    ensures var v := ScanRows(sc, ix, 0, checked);
      ScanCols(sc, ix, checked) == if v.Searching? then ScanCols(sc, ix + 1, v.checked) else v
  {
  }

  /** The column loop: the whole search, stopping at the first move or when the budget is spent. */
  method ScanBoard(board: array<int>, tiles: array<TileStatus>, xo: array<int>, yo: array<int>, mo: array<int>,
                   l: Layout, dirs: int, toCheck: int, ghost sc: Scan)
    returns (mineWillMove: bool, currentX: int, currentY: int, newX: int, newY: int)
    requires sc.Valid() && sc.lay == l && sc.board == board[..] && sc.status == tiles[..]
    requires sc.xOrder == xo[..] && sc.yOrder == yo[..] && sc.moveOrder == mo[..] && sc.dirs == dirs && sc.toCheck == toCheck
    ensures mineWillMove <==> FindMove(sc).Move?
    ensures mineWillMove ==> FindMove(sc) == Move((currentX, currentY), (newX, newY))
  {
    var minesChecked: nat := 0;
    var finished := false;
    mineWillMove := false;
    currentX, currentY, newX, newY := -1, -1, -1, -1;
    for ix := 0 to l.width
      invariant FindMove(sc) == ScanCols(sc, ix, minesChecked)
      invariant !mineWillMove
    {
      ScanColsVisit(sc, ix, minesChecked);
      minesChecked, mineWillMove, finished, currentX, currentY, newX, newY :=
        ScanColumn(board, tiles, xo, yo, mo, l, dirs, toCheck, ix, minesChecked, sc);
      if finished {
        break;
      }
    }
  }

  // ---------------------------------------------------------------
  // ProcessMovement
  // ---------------------------------------------------------------

  /** Move the mine from src to dst on the board, then renumber the recount rectangle. */
  method ApplyMove(g: GameData, menu: MenuSettings, src: (int, int), dst: (int, int)) returns (status: MineError)
    requires g.Valid() && g.Lay(menu).InGrid(src.0, src.1) && g.Lay(menu).InGrid(dst.0, dst.1)
    modifies g.gameBoard
    ensures g.Valid() && status == Success
    ensures g.gameBoard[..] == AfterMove(g.Lay(menu), old(g.gameBoard[..]), src, dst)
  {
    var l := g.Lay(menu);
    g.gameBoard[l.Index(src.0, src.1)] := 0;
    g.gameBoard[l.Index(dst.0, dst.1)] := BOMB;
    assert g.gameBoard[..] == MovedBoard(l, old(g.gameBoard[..]), src, dst);
    RecountHoldsEnds(l, src, dst);
    var rect := RecountRect(l, src, dst);
    // Both branches of the source compute this rectangle; the clamp inside AssignNumbers changes nothing.
    assert ClampedRect(l, rect.0, rect.1, rect.2, rect.3) == rect;
    status := AssignNumbers(g, menu, rect.0, rect.1, rect.2, rect.3);
  }

  /** The search over the drawn orders, then the move it finds. */
  method SearchAndMove(g: GameData, menu: MenuSettings, xo: array<int>, yo: array<int>, mo: array<int>,
                       dirs: int, toCheck: int, ghost sc: Scan)
    returns (status: MineError, ghost outcome: Outcome)
    requires g.Valid() && sc.Valid() && sc.lay == g.Lay(menu) && sc.board == g.gameBoard[..] && sc.status == g.tileStatus[..]
    requires sc.xOrder == xo[..] && sc.yOrder == yo[..] && sc.moveOrder == mo[..] && sc.dirs == dirs && sc.toCheck == toCheck
    modifies g.gameBoard
    ensures g.Valid() && status == Success && outcome == FindMove(sc)
    ensures if outcome.Move? then g.gameBoard[..] == AfterMove(g.Lay(menu), old(g.gameBoard[..]), outcome.src, outcome.dst)
      else g.gameBoard[..] == old(g.gameBoard[..])
    ensures BombCount(g.gameBoard[..]) == BombCount(old(g.gameBoard[..]))
    ensures NumbersConsistent(g.Lay(menu), old(g.gameBoard[..])) ==> NumbersConsistent(g.Lay(menu), g.gameBoard[..])
  {
    var l := g.Lay(menu);
    var mineWillMove, currentX, currentY, newX, newY := ScanBoard(g.gameBoard, g.tileStatus, xo, yo, mo, l, dirs, toCheck, sc);
    outcome := FindMove(sc);
    status := Success;
    if mineWillMove {
      status := ApplyMove(g, menu, (currentX, currentY), (newX, newY));
    }
    FoundMoveKeepsBoard(sc);
  }

  /**
   * MineMovement_ProcessMovement: draw the three random orders, search for
   * a covered mine that can step onto a free tile, and if one is found move
   * it and recount the tiles around both ends. Tile statuses are never
   * written. A generator error ends the call with the board untouched.
   */
  method ProcessMovement(g: GameData, menu: MenuSettings, rng: RandomSource) returns (status: MineError, ghost outcome: Outcome)
    requires g.Valid() && menu.Valid()
    modifies g.gameBoard, rng
    ensures g.Valid()
    ensures var o := DrawOrders(old(rng.samples), g.width, g.height, DirectionsToCheck(menu.movementAggressive));
      status == o.status && rng.samples == o.rest
    ensures status == Success ==> outcome == FindMove(MovementScan(g, menu, old(g.gameBoard[..]), old(rng.samples)))
    ensures status != Success ==> outcome == Searching(0)
    ensures if outcome.Move? then g.gameBoard[..] == AfterMove(g.Lay(menu), old(g.gameBoard[..]), outcome.src, outcome.dst)
      else g.gameBoard[..] == old(g.gameBoard[..])
    ensures BombCount(g.gameBoard[..]) == BombCount(old(g.gameBoard[..]))
    ensures NumbersConsistent(g.Lay(menu), old(g.gameBoard[..])) ==> NumbersConsistent(g.Lay(menu), g.gameBoard[..])
  {
    var dirs := DirectionsToCheck(menu.movementAggressive);
    var toCheck := MinesToCheck(g.mines, menu.movementAggressive);
    g.AreaBound();
    ghost var sc := MovementScan(g, menu, g.gameBoard[..], rng.samples);
    var xo, yo, mo;
    status, xo, yo, mo := MakeOrders(rng, g.width, g.height, dirs);
    if status != Success {
      return status, Searching(0);
    }
    status, outcome := SearchAndMove(g, menu, xo, yo, mo, dirs, toCheck, sc);
  }
}
