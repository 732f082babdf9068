/**
 * The mouse handlers of MineMouse.cpp: holding and releasing tiles while a
 * button is down, flagging, the first click that moves a mine off the
 * clicked tile, the left click that uncovers, and the double-click chord.
 * Pixel positions are already converted to grid cells: a handler that
 * tests whether the mouse is over the board takes an Option cell.
 */
module MineMouse {
  import opened MineDefs
  import opened BoardSpec
  import opened Mine
  import opened MineRandom
  import opened MineUncover

  // ---------------------------------------------------------------
  // Holding and releasing tiles: the specification
  // ---------------------------------------------------------------

  /** The tile (x, y) goes from status `from` to status `to`, if it has status `from`. */
  function RetagTile(l: Layout, s: seq<TileStatus>, x: int, y: int, from: TileStatus, to: TileStatus): (r: seq<TileStatus>)
    requires l.Valid() && |s| == l.Size() && l.InGrid(x, y)
    ensures |r| == |s|
  {
    var k := l.Index(x, y);
    if s[k] == from then s[k := to] else s
  }

  /** One visit of a neighbour loop that retags: offset (dx, dy) around (x, y), skipped when the wrap rule drops it. */
  function RetagCell(l: Layout, s: seq<TileStatus>, x: int, y: int, dx: int, dy: int, from: TileStatus, to: TileStatus): (r: seq<TileStatus>)
    requires l.Valid() && |s| == l.Size()
    ensures |r| == |s|
  {
    match l.Neighbour(x, y, dx, dy)
    case None => s
    case Some(c) => RetagTile(l, s, c.0, c.1, from, to)
  }

  /** The visits at offsets (dx, dy), (dx, dy+1), ..., (dx, 1), in loop order. */
  function RetagRows(l: Layout, s: seq<TileStatus>, x: int, y: int, dx: int, dy: int, from: TileStatus, to: TileStatus): (r: seq<TileStatus>)
    requires l.Valid() && |s| == l.Size() && -1 <= dy <= 2
    ensures |r| == |s|
    decreases 2 - dy
  {
    if dy > 1 then s else RetagRows(l, RetagCell(l, s, x, y, dx, dy, from, to), x, y, dx, dy + 1, from, to)
  }

  /** The columns dx, dx+1, ..., 1 of the neighbour loop, in loop order. */
  function RetagCols(l: Layout, s: seq<TileStatus>, x: int, y: int, dx: int, from: TileStatus, to: TileStatus): (r: seq<TileStatus>)
    requires l.Valid() && |s| == l.Size() && -1 <= dx <= 2
    ensures |r| == |s|
    decreases 2 - dx
  {
    if dx > 1 then s else RetagCols(l, RetagRows(l, s, x, y, dx, -1, from, to), x, y, dx + 1, from, to)
  }

  /**
   * The reference for the retagging loops: every tile of the 3x3 block
   * around (x, y) (the centre included) with status `from` gets status `to`.
   */
  function Retagged(l: Layout, s: seq<TileStatus>, x: int, y: int, from: TileStatus, to: TileStatus): (r: seq<TileStatus>)
    requires l.Valid() && |s| == l.Size()
    ensures |r| == |s|
  {
    seq(|s|, i requires 0 <= i < |s| =>
      var c := l.CellOf(i);
      if s[i] == from && l.InBlock(x, y, c.0, c.1) then to else s[i])
  }

  /** Offset (dx, dy) of the loop around (x, y) lands on storage index i. */
  predicate Lands(l: Layout, x: int, y: int, dx: int, dy: int, i: int)
    requires l.Valid()
  {
    match l.Neighbour(x, y, dx, dy)
    case None => false
    case Some(c) => l.Index(c.0, c.1) == i
  }

  /** Some offset (dx, dy'), dy <= dy' <= 1, lands on i. */
  predicate HitRows(l: Layout, x: int, y: int, dx: int, dy: int, i: int)
    requires l.Valid() && -1 <= dy <= 2
    decreases 2 - dy
  {
    dy <= 1 && (Lands(l, x, y, dx, dy, i) || HitRows(l, x, y, dx, dy + 1, i))
  }

  /** Some offset in the columns dx .. 1 lands on i. */
  predicate HitCols(l: Layout, x: int, y: int, dx: int, i: int)
    requires l.Valid() && -1 <= dx <= 2
    decreases 2 - dx
  {
    dx <= 1 && (HitRows(l, x, y, dx, -1, i) || HitCols(l, x, y, dx + 1, i))
  }

  lemma {:induction false} RetagRowsAt(l: Layout, s: seq<TileStatus>, x: int, y: int, dx: int, dy: int, from: TileStatus, to: TileStatus, i: int)
    requires l.Valid() && |s| == l.Size() && -1 <= dy <= 2 && from != to && 0 <= i < |s|
    ensures RetagRows(l, s, x, y, dx, dy, from, to)[i] == if s[i] == from && HitRows(l, x, y, dx, dy, i) then to else s[i]
    decreases 2 - dy
  {
    if dy <= 1 {
      var s' := RetagCell(l, s, x, y, dx, dy, from, to);
      assert s'[i] == if s[i] == from && Lands(l, x, y, dx, dy, i) then to else s[i];
      RetagRowsAt(l, s', x, y, dx, dy + 1, from, to, i);
    }
  }

  lemma {:induction false} RetagColsAt(l: Layout, s: seq<TileStatus>, x: int, y: int, dx: int, from: TileStatus, to: TileStatus, i: int)
    requires l.Valid() && |s| == l.Size() && -1 <= dx <= 2 && from != to && 0 <= i < |s|
    ensures RetagCols(l, s, x, y, dx, from, to)[i] == if s[i] == from && HitCols(l, x, y, dx, i) then to else s[i]
    decreases 2 - dx
  {
    if dx <= 1 {
      var s' := RetagRows(l, s, x, y, dx, -1, from, to);
      RetagRowsAt(l, s, x, y, dx, -1, from, to, i);
      RetagColsAt(l, s', x, y, dx + 1, from, to, i);
    }
  }

  /** Landing on i is landing on the cell of i. */
  lemma LandsOnCell(l: Layout, x: int, y: int, dx: int, dy: int, i: int)
    requires l.Valid() && 0 <= i < l.Size()
    ensures Lands(l, x, y, dx, dy, i) <==>
      Wrap(x + dx, l.width, l.wrapHorz) == Some(l.CellOf(i).0) && Wrap(y + dy, l.height, l.wrapVert) == Some(l.CellOf(i).1)
  {
    l.IndexCellOf(i);
    match l.Neighbour(x, y, dx, dy)
    case None =>
    case Some(c) => l.CellOfIndex(c.0, c.1);
  }

  /** The cells the loop lands on are exactly the cells of the 3x3 block. */
  lemma HitColsIsBlock(l: Layout, x: int, y: int, i: int)
    requires l.Valid() && 0 <= i < l.Size()
    ensures HitCols(l, x, y, -1, i) <==> l.InBlock(x, y, l.CellOf(i).0, l.CellOf(i).1)
  {
    forall dx, dy | -1 <= dx <= 1 && -1 <= dy <= 1 {
      LandsOnCell(l, x, y, dx, dy, i);
    }
  }

  /** The retagging loops compute Retagged. */
  lemma RetagBlockIsRetagged(l: Layout, s: seq<TileStatus>, x: int, y: int, from: TileStatus, to: TileStatus)
    requires l.Valid() && |s| == l.Size() && from != to
    ensures RetagCols(l, s, x, y, -1, from, to) == Retagged(l, s, x, y, from, to)
  {
    forall i | 0 <= i < |s|
      ensures RetagCols(l, s, x, y, -1, from, to)[i] == Retagged(l, s, x, y, from, to)[i]
    {
      RetagColsAt(l, s, x, y, -1, from, to, i);
      HitColsIsBlock(l, x, y, i);
    }
  }

  /** A column the wrap rule drops retags nothing. */
  lemma {:induction false} RetagRowsSkipped(l: Layout, s: seq<TileStatus>, x: int, y: int, dx: int, dy: int, from: TileStatus, to: TileStatus)
    requires l.Valid() && |s| == l.Size() && -1 <= dy <= 2 && Wrap(x + dx, l.width, l.wrapHorz).None?
    ensures RetagRows(l, s, x, y, dx, dy, from, to) == s
    decreases 2 - dy
  {
    if dy <= 1 {
      RetagRowsSkipped(l, s, x, y, dx, dy + 1, from, to);
    }
  }

  /** Retagging changes only tiles with status `from`, and only to `to`. */
  lemma RetaggedOnly(l: Layout, s: seq<TileStatus>, x: int, y: int, from: TileStatus, to: TileStatus)
    requires l.Valid() && |s| == l.Size()
    ensures forall i :: 0 <= i < |s| ==> Retagged(l, s, x, y, from, to)[i] == s[i] || (s[i] == from && Retagged(l, s, x, y, from, to)[i] == to)
  {
  }

  /** Releasing the block after holding it restores a block that held no tile. */
  lemma HoldThenRelease(l: Layout, s: seq<TileStatus>, x: int, y: int)
    requires l.Valid() && |s| == l.Size()
    requires forall i :: 0 <= i < |s| && l.InBlock(x, y, l.CellOf(i).0, l.CellOf(i).1) ==> s[i] != Held
    ensures Retagged(l, Retagged(l, s, x, y, Normal, Held), x, y, Held, Normal) == s
  {
  }

  /** After a release no tile of the block is held. */
  lemma ReleasedBlock(l: Layout, s: seq<TileStatus>, x: int, y: int)
    requires l.Valid() && |s| == l.Size()
    ensures forall i :: 0 <= i < |s| && l.InBlock(x, y, l.CellOf(i).0, l.CellOf(i).1) ==> Retagged(l, s, x, y, Held, Normal)[i] != Held
  {
  }

  // ---------------------------------------------------------------
  // The retagging loops
  // ---------------------------------------------------------------

  /**
   * The hold and release loops of MineMouse_StartDoubleClick,
   * MineMouse_MoveDoubleClick and MineMouse_ProcessDoubleClick: every tile
   * of the block around (x, y) with status `from` gets status `to`.
   */
  method RetagAround(g: GameData, menu: MenuSettings, x: int, y: int, from: TileStatus, to: TileStatus)
    requires g.Valid() && g.Lay(menu).InGrid(x, y) && from != to
    modifies g.tileStatus
    ensures g.tileStatus[..] == Retagged(g.Lay(menu), old(g.tileStatus[..]), x, y, from, to)
  {
    ghost var l := g.Lay(menu);
    ghost var s0 := g.tileStatus[..];
    for ix := -1 to 2
      invariant RetagCols(l, g.tileStatus[..], x, y, ix, from, to) == RetagCols(l, s0, x, y, -1, from, to)
    {
      RetagColumn(g, menu, x, y, ix, from, to);
    }
    RetagBlockIsRetagged(l, s0, x, y, from, to);
  }

  /** One column x + ix of a retagging loop, after the horizontal wrap rule. */
  method RetagColumn(g: GameData, menu: MenuSettings, x: int, y: int, ix: int, from: TileStatus, to: TileStatus)
    requires g.Valid() && g.Lay(menu).InGrid(x, y) && -1 <= ix <= 1
    modifies g.tileStatus
    ensures g.tileStatus[..] == RetagRows(g.Lay(menu), old(g.tileStatus[..]), x, y, ix, -1, from, to)
  {
    var l := g.Lay(menu);
    ghost var s0 := g.tileStatus[..];
    match Wrap(x + ix, g.width, menu.wrapHorz)
    case None =>
      RetagRowsSkipped(l, s0, x, y, ix, -1, from, to);
    case Some(xPos) =>
      for jx := -1 to 2
        invariant RetagRows(l, g.tileStatus[..], x, y, ix, jx, from, to) == RetagRows(l, s0, x, y, ix, -1, from, to)
      {
        match Wrap(y + jx, g.height, menu.wrapVert)
        case None =>
          assert l.Neighbour(x, y, ix, jx) == None;
        case Some(yPos) =>
          assert l.Neighbour(x, y, ix, jx) == Some((xPos, yPos));
          var k := l.Index(xPos, yPos);
          if g.tileStatus[k] == from {
            g.tileStatus[k] := to;
          }
      }
  }

  // ---------------------------------------------------------------
  // Counting the flags around a tile (the chord)
  // ---------------------------------------------------------------

  /** The flag count loop of MineMouse_ProcessDoubleClick: the flags in the 3x3 block around (x, y). */
  method CountFlags(g: GameData, menu: MenuSettings, x: int, y: int) returns (flagCount: int)
    requires g.Valid() && g.Lay(menu).InGrid(x, y)
    ensures flagCount == FlagsAround(g.Lay(menu), g.tileStatus[..], x, y)
    ensures 0 <= flagCount <= 9
  {
    var l := g.Lay(menu);
    ghost var m := StatusMask(g.tileStatus[..], Flag);
    BlockCountBound(l, m, x, y, false);
    flagCount := 0;
    for ix := -1 to 2
      invariant flagCount + ColsFrom(l, m, x, y, ix, false) == BlockCount(l, m, x, y, false)
    {
      var column := CountFlagColumn(g, menu, x, y, ix);
      flagCount := flagCount + column;
    }
  }

  /** The flags of column x + ix of the block, after the horizontal wrap rule. */
  method CountFlagColumn(g: GameData, menu: MenuSettings, x: int, y: int, ix: int) returns (flags: int)
    requires g.Valid() && g.Lay(menu).InGrid(x, y)
    ensures flags == RowsFrom(g.Lay(menu), StatusMask(g.tileStatus[..], Flag), x, y, ix, -1, false)
  {
    var l := g.Lay(menu);
    ghost var m := StatusMask(g.tileStatus[..], Flag);
    flags := 0;
    match Wrap(x + ix, g.width, menu.wrapHorz)
    case None =>
      RowsFromSkipped(l, m, x, y, ix, -1, false);
    case Some(xPos) =>
      for jx := -1 to 2
        invariant flags + RowsFrom(l, m, x, y, ix, jx, false) == RowsFrom(l, m, x, y, ix, -1, false)
      {
        match Wrap(y + jx, g.height, menu.wrapVert)
        case None =>
          CellMarkSkipped(l, m, x, y, ix, jx, false);
        case Some(yPos) =>
          CellMarkAt(l, m, x, y, ix, jx, false, xPos, yPos);
          if g.tileStatus[l.Index(xPos, yPos)] == Flag {
            flags := flags + 1;
          }
      }
  }

  // ---------------------------------------------------------------
  // The held tiles: the specification of the Start and Move handlers
  // ---------------------------------------------------------------

  /** The cell a mouse position stands for: (-1, -1) when it is off the board. */
  function GridOf(pos: Option<(int, int)>): (int, int) {
    match pos
    case None => (-1, -1)
    case Some(c) => c
  }

  /** A remembered cell: (-1, -1) for none, otherwise on the board. */
  predicate PrevOk(l: Layout, prev: (int, int)) {
    prev == (-1, -1) || l.InGrid(prev.0, prev.1)
  }

  /** A mouse position over the board is a cell of the grid. */
  predicate PosOk(l: Layout, pos: Option<(int, int)>) {
    pos.Some? ==> l.InGrid(pos.value.0, pos.value.1)
  }

  predicate NoHeld(s: seq<TileStatus>) {
    forall i :: 0 <= i < |s| ==> s[i] != Held
  }

  /** The only held tile, if any, is the remembered cell (the left-click hold). */
  predicate HeldOnlyAt(l: Layout, s: seq<TileStatus>, prev: (int, int))
    requires l.Valid() && |s| == l.Size() && PrevOk(l, prev)
  {
    forall i :: 0 <= i < |s| && s[i] == Held ==> prev != (-1, -1) && i == l.Index(prev.0, prev.1)
  }

  /** Every held tile lies in the block around the remembered cell (the double-click hold). */
  predicate HeldWithin(l: Layout, s: seq<TileStatus>, prev: (int, int))
    requires l.Valid() && |s| == l.Size()
  {
    forall i :: 0 <= i < |s| && s[i] == Held ==> prev != (-1, -1) && l.InBlock(prev.0, prev.1, l.CellOf(i).0, l.CellOf(i).1)
  }

  /** Tiles only go from Normal to Held or from Held back to Normal. */
  predicate HoldOnly(s0: seq<TileStatus>, s1: seq<TileStatus>) {
    |s0| == |s1| &&
    forall i :: 0 <= i < |s0| ==> s1[i] == s0[i] || (s0[i] == Normal && s1[i] == Held) || (s0[i] == Held && s1[i] == Normal)
  }

  /** Releasing the tile held by a left click: the remembered cell, if any, goes from Held to Normal. */
  function ReleaseTile(l: Layout, s: seq<TileStatus>, prev: (int, int)): (r: seq<TileStatus>)
    requires l.Valid() && |s| == l.Size() && PrevOk(l, prev)
    ensures |r| == |s|
  {
    if prev.0 != -1 && prev.1 != -1 then RetagTile(l, s, prev.0, prev.1, Held, Normal) else s
  }

  /** Releasing the block held by a double click around the remembered cell, if any. */
  function ReleaseBlock(l: Layout, s: seq<TileStatus>, prev: (int, int)): (r: seq<TileStatus>)
    requires l.Valid() && |s| == l.Size()
    ensures |r| == |s|
  {
    if prev.0 != -1 && prev.1 != -1 then Retagged(l, s, prev.0, prev.1, Held, Normal) else s
  }

  /** MineMouse_StartLeftClick: a Normal tile under the mouse is held and remembered. */
  function StartTile(l: Layout, s: seq<TileStatus>, prev: (int, int), c: (int, int)): (r: (seq<TileStatus>, (int, int)))
    requires l.Valid() && |s| == l.Size() && l.InGrid(c.0, c.1)
    ensures |r.0| == |s|
  {
    if s[l.Index(c.0, c.1)] == Normal then (s[l.Index(c.0, c.1) := Held], c) else (s, prev)
  }

  /** MineMouse_StartDoubleClick: the Normal tiles of the block under the mouse are held, and the cell remembered. */
  function StartBlock(l: Layout, s: seq<TileStatus>, c: (int, int)): (r: (seq<TileStatus>, (int, int)))
    requires l.Valid() && |s| == l.Size()
    ensures |r.0| == |s|
  {
    (Retagged(l, s, c.0, c.1, Normal, Held), c)
  }

  /**
   * MineMouse_MoveLeftClick: when the mouse reaches another cell (or leaves
   * the board) the remembered tile is released, and the tile now under the
   * mouse, if any, is held and remembered.
   */
  function MoveTile(l: Layout, s: seq<TileStatus>, prev: (int, int), pos: Option<(int, int)>): (r: (seq<TileStatus>, (int, int)))
    requires l.Valid() && |s| == l.Size() && PrevOk(l, prev) && PosOk(l, pos)
    ensures |r.0| == |s|
  {
    if prev == GridOf(pos) then (s, prev)
    else
      var s1 := ReleaseTile(l, s, prev);
      match pos
      case None => (s1, (-1, -1))
      case Some(c) => (RetagTile(l, s1, c.0, c.1, Normal, Held), c)
  }

  /** MineMouse_MoveDoubleClick: MoveTile for the 3x3 block of a double click. */
  function MoveBlock(l: Layout, s: seq<TileStatus>, prev: (int, int), pos: Option<(int, int)>): (r: (seq<TileStatus>, (int, int)))
    requires l.Valid() && |s| == l.Size() && PrevOk(l, prev) && PosOk(l, pos)
    ensures |r.0| == |s|
  {
    if prev == GridOf(pos) then (s, prev)
    else
      var s1 := ReleaseBlock(l, s, prev);
      match pos
      case None => (s1, (-1, -1))
      case Some(c) => (Retagged(l, s1, c.0, c.1, Normal, Held), c)
  }

  // ---------------------------------------------------------------
  // The held tiles: what the handlers keep
  // ---------------------------------------------------------------

  lemma HoldOnlyTrans(s0: seq<TileStatus>, s1: seq<TileStatus>, s2: seq<TileStatus>)
    requires HoldOnly(s0, s1) && HoldOnly(s1, s2)
    ensures HoldOnly(s0, s2)
  {
  }

  /** Every hold and release touches only Normal and Held tiles, and swaps one for the other. */
  lemma HoldHandlersOnlyHold(l: Layout, s: seq<TileStatus>, prev: (int, int), pos: Option<(int, int)>)
    requires l.Valid() && |s| == l.Size() && PrevOk(l, prev) && PosOk(l, pos)
    ensures HoldOnly(s, ReleaseTile(l, s, prev)) && HoldOnly(s, ReleaseBlock(l, s, prev))
    ensures pos.Some? ==> HoldOnly(s, StartTile(l, s, prev, pos.value).0) && HoldOnly(s, StartBlock(l, s, pos.value).0)
    ensures HoldOnly(s, MoveTile(l, s, prev, pos).0) && HoldOnly(s, MoveBlock(l, s, prev, pos).0)
  {
    RetaggedOnly(l, s, prev.0, prev.1, Held, Normal);
    var s1 := ReleaseTile(l, s, prev);
    var b1 := ReleaseBlock(l, s, prev);
    if pos.Some? {
      var c := pos.value;
      RetaggedOnly(l, s, c.0, c.1, Normal, Held);
      RetaggedOnly(l, b1, c.0, c.1, Normal, Held);
      HoldOnlyTrans(s, s1, RetagTile(l, s1, c.0, c.1, Normal, Held));
      HoldOnlyTrans(s, b1, Retagged(l, b1, c.0, c.1, Normal, Held));
    }
  }

  /** An in-grid cell is in its own block. */
  lemma InOwnBlock(l: Layout, x: int, y: int)
    requires l.Valid() && l.InGrid(x, y)
    ensures l.InBlock(x, y, x, y)
  {
    assert Wrap(x, l.width, l.wrapHorz) == Some(x);
    assert Wrap(y, l.height, l.wrapVert) == Some(y);
  }

  /** Releasing the remembered tile leaves no tile held. */
  lemma ReleaseTileClears(l: Layout, s: seq<TileStatus>, prev: (int, int))
    requires l.Valid() && |s| == l.Size() && PrevOk(l, prev) && HeldOnlyAt(l, s, prev)
    ensures NoHeld(ReleaseTile(l, s, prev))
  {
  }

  /** Releasing the block around the remembered cell leaves no tile held. */
  lemma ReleaseBlockClears(l: Layout, s: seq<TileStatus>, prev: (int, int))
    requires l.Valid() && |s| == l.Size() && PrevOk(l, prev) && HeldWithin(l, s, prev)
    ensures NoHeld(ReleaseBlock(l, s, prev))
  {
    if prev.0 != -1 && prev.1 != -1 {
      ReleasedBlock(l, s, prev.0, prev.1);
    }
  }

  /** After StartLeftClick on a board with no held tile, the only held tile is the remembered one. */
  lemma StartTileHeld(l: Layout, s: seq<TileStatus>, prev: (int, int), c: (int, int))
    requires l.Valid() && |s| == l.Size() && l.InGrid(c.0, c.1) && PrevOk(l, prev) && NoHeld(s)
    ensures PrevOk(l, StartTile(l, s, prev, c).1)
    ensures HeldOnlyAt(l, StartTile(l, s, prev, c).0, StartTile(l, s, prev, c).1)
  {
  }

  /** StartDoubleClick from a left-click hold at the same cell holds tiles of that block only. */
  lemma StartBlockHeld(l: Layout, s: seq<TileStatus>, c: (int, int))
    requires l.Valid() && |s| == l.Size() && l.InGrid(c.0, c.1) && HeldOnlyAt(l, s, c)
    ensures HeldWithin(l, StartBlock(l, s, c).0, c)
  {
    InOwnBlock(l, c.0, c.1);
    l.CellOfIndex(c.0, c.1);
  }

  /** MoveLeftClick keeps the left-click hold at the remembered cell. */
  lemma MoveTileHeld(l: Layout, s: seq<TileStatus>, prev: (int, int), pos: Option<(int, int)>)
    requires l.Valid() && |s| == l.Size() && PrevOk(l, prev) && PosOk(l, pos) && HeldOnlyAt(l, s, prev)
    ensures PrevOk(l, MoveTile(l, s, prev, pos).1)
    ensures HeldOnlyAt(l, MoveTile(l, s, prev, pos).0, MoveTile(l, s, prev, pos).1)
  {
    if prev != GridOf(pos) {
      ReleaseTileClears(l, s, prev);
    }
  }

  /** MoveDoubleClick keeps the double-click hold inside the block around the remembered cell. */
  lemma MoveBlockHeld(l: Layout, s: seq<TileStatus>, prev: (int, int), pos: Option<(int, int)>)
    requires l.Valid() && |s| == l.Size() && PrevOk(l, prev) && PosOk(l, pos) && HeldWithin(l, s, prev)
    ensures PrevOk(l, MoveBlock(l, s, prev, pos).1)
    ensures HeldWithin(l, MoveBlock(l, s, prev, pos).0, MoveBlock(l, s, prev, pos).1)
  {
    if prev != GridOf(pos) {
      ReleaseBlockClears(l, s, prev);
    }
  }

  /** Moving onto a cell and off the board again restores a board with no held tile. */
  lemma MoveTileAndBack(l: Layout, s: seq<TileStatus>, c: (int, int))
    requires l.Valid() && |s| == l.Size() && l.InGrid(c.0, c.1) && NoHeld(s)
    ensures var r := MoveTile(l, s, (-1, -1), Some(c)); MoveTile(l, r.0, r.1, None) == (s, (-1, -1))
  {
    var k := l.Index(c.0, c.1);
    var r := MoveTile(l, s, (-1, -1), Some(c));
    if s[k] == Normal {
      assert r.0[k := Normal] == s;
    }
  }

  /** The same round trip for the block of a double click. */
  lemma MoveBlockAndBack(l: Layout, s: seq<TileStatus>, c: (int, int))
    requires l.Valid() && |s| == l.Size() && l.InGrid(c.0, c.1) && NoHeld(s)
    ensures var r := MoveBlock(l, s, (-1, -1), Some(c)); MoveBlock(l, r.0, r.1, None) == (s, (-1, -1))
  {
    HoldThenRelease(l, s, c.0, c.1);
  }

  // ---------------------------------------------------------------
  // The Start and Move handlers
  // ---------------------------------------------------------------

  function PrevOf(g: GameData): (int, int)
    reads g`prevGridX, g`prevGridY
  {
    (g.prevGridX, g.prevGridY)
  }

  /** MineMouse_StartLeftClick with the mouse over the cell (x, y). */
  method StartLeftClick(g: GameData, menu: MenuSettings, x: int, y: int)
    requires g.Valid() && g.Lay(menu).InGrid(x, y)
    modifies g.tileStatus, g`prevGridX, g`prevGridY
    ensures g.Valid()
    ensures (g.tileStatus[..], PrevOf(g)) == StartTile(g.Lay(menu), old(g.tileStatus[..]), old(PrevOf(g)), (x, y))
  {
    var idx := g.Lay(menu).Index(x, y);
    if g.tileStatus[idx] == Normal {
      g.tileStatus[idx] := Held;
      g.prevGridX := x;
      g.prevGridY := y;
    }
  }

  /** MineMouse_StartDoubleClick with the mouse over the cell (x, y). */
  method StartDoubleClick(g: GameData, menu: MenuSettings, x: int, y: int)
    requires g.Valid() && g.Lay(menu).InGrid(x, y)
    modifies g.tileStatus, g`prevGridX, g`prevGridY
    ensures g.Valid()
    ensures (g.tileStatus[..], PrevOf(g)) == StartBlock(g.Lay(menu), old(g.tileStatus[..]), (x, y))
  {
    RetagAround(g, menu, x, y, Normal, Held);
    g.prevGridX := x;
    g.prevGridY := y;
  }

  /** MineMouse_MoveLeftClick with the mouse over the cell pos (None: off the board). */
  method MoveLeftClick(g: GameData, menu: MenuSettings, pos: Option<(int, int)>)
    requires g.Valid() && PosOk(g.Lay(menu), pos)
    modifies g.tileStatus, g`prevGridX, g`prevGridY
    ensures g.Valid()
    ensures (g.tileStatus[..], PrevOf(g)) == MoveTile(g.Lay(menu), old(g.tileStatus[..]), old(PrevOf(g)), pos)
  {
    var l := g.Lay(menu);
    var grid := GridOf(pos);
    if g.prevGridX == grid.0 && g.prevGridY == grid.1 {
      return;
    }
    ReleasePrevTile(g, menu);
    match pos
    case None =>
    case Some(c) =>
      var k := l.Index(c.0, c.1);
      if g.tileStatus[k] == Normal {
        g.tileStatus[k] := Held;
      }
      g.prevGridX := c.0;
      g.prevGridY := c.1;
  }

  /** MineMouse_MoveDoubleClick with the mouse over the cell pos (None: off the board). */
  method MoveDoubleClick(g: GameData, menu: MenuSettings, pos: Option<(int, int)>)
    requires g.Valid() && PosOk(g.Lay(menu), pos)
    modifies g.tileStatus, g`prevGridX, g`prevGridY
    ensures g.Valid()
    ensures (g.tileStatus[..], PrevOf(g)) == MoveBlock(g.Lay(menu), old(g.tileStatus[..]), old(PrevOf(g)), pos)
  {
    var grid := GridOf(pos);
    if g.prevGridX == grid.0 && g.prevGridY == grid.1 {
      return;
    }
    ReleasePrevBlock(g, menu);
    match pos
    case None =>
    case Some(c) =>
      RetagAround(g, menu, c.0, c.1, Normal, Held);
      g.prevGridX := c.0;
      g.prevGridY := c.1;
  }

  /** The release at the start of MineMouse_ProcessLeftClick: the remembered tile, if held, is Normal again, and no cell is remembered. */
  method ReleasePrevTile(g: GameData, menu: MenuSettings)
    requires g.Valid()
    modifies g.tileStatus, g`prevGridX, g`prevGridY
    ensures g.Valid() && PrevOf(g) == (-1, -1)
    ensures g.tileStatus[..] == ReleaseTile(g.Lay(menu), old(g.tileStatus[..]), old(PrevOf(g)))
  {
    if g.prevGridX != -1 && g.prevGridY != -1 {
      var k := g.Lay(menu).Index(g.prevGridX, g.prevGridY);
      if g.tileStatus[k] == Held {
        g.tileStatus[k] := Normal;
      }
      g.prevGridX := -1;
      g.prevGridY := -1;
    }
  }

  /** The release at the start of MineMouse_MoveDoubleClick and MineMouse_ProcessDoubleClick: the block around the remembered cell. */
  method ReleasePrevBlock(g: GameData, menu: MenuSettings)
    requires g.Valid()
    modifies g.tileStatus, g`prevGridX, g`prevGridY
    ensures g.Valid() && PrevOf(g) == (-1, -1)
    ensures g.tileStatus[..] == ReleaseBlock(g.Lay(menu), old(g.tileStatus[..]), old(PrevOf(g)))
  {
    if g.prevGridX != -1 && g.prevGridY != -1 {
      RetagAround(g, menu, g.prevGridX, g.prevGridY, Held, Normal);
      g.prevGridX := -1;
      g.prevGridY := -1;
    }
  }

  // ---------------------------------------------------------------
  // Flagging: MineMouse_ProcessRightDown
  // ---------------------------------------------------------------

  /** The status a right click gives a tile: Normal and Flag swap, every other status stays. */
  function Toggle(t: TileStatus): (r: TileStatus)
    ensures t == Normal <==> r == Flag
    ensures t == Flag <==> r == Normal
    ensures t != Normal && t != Flag ==> r == t
  {
    match t
    case Normal => Flag
    case Flag => Normal
    case _ => t
  }

  /** The DWORD numFlagged after a right click on a tile of status t: one up for a new flag, one down for a removed one, modulo 2^32. */
  function FlagCounter(n: int, t: TileStatus): (r: int)
    requires 0 <= n <= UINT_MAX
    ensures 0 <= r <= UINT_MAX
    ensures t == Normal && n < UINT_MAX ==> r == n + 1
    ensures t == Flag && 0 < n ==> r == n - 1
    ensures t != Normal && t != Flag ==> r == n
  {
    if t == Normal then (n + 1) % (UINT_MAX + 1)
    else if t == Flag then (n - 1) % (UINT_MAX + 1)
    else n
  }

  function FlagCount(s: seq<TileStatus>): nat {
    Count(StatusMask(s, Flag))
  }

  /** MineMouse_ProcessRightDown at the cell (x, y): flag a Normal tile, unflag a flagged one, leave any other tile alone. */
  method ProcessRightDown(g: GameData, menu: MenuSettings, x: int, y: int)
    requires g.Valid() && g.Lay(menu).InGrid(x, y)
    modifies g.tileStatus, g`numFlagged
    ensures g.Valid()
    ensures var k := g.Lay(menu).Index(x, y);
      && g.tileStatus[..] == old(g.tileStatus[..])[k := Toggle(old(g.tileStatus[k]))]
      && g.numFlagged == FlagCounter(old(g.numFlagged), old(g.tileStatus[k]))
  {
    var k := g.Lay(menu).Index(x, y);
    if g.tileStatus[k] == Normal {
      g.tileStatus[k] := Flag;
      g.numFlagged := (g.numFlagged + 1) % (UINT_MAX + 1);
    } else if g.tileStatus[k] == Flag {
      g.tileStatus[k] := Normal;
      g.numFlagged := (g.numFlagged - 1) % (UINT_MAX + 1);
    }
  }

  /** Right-clicking the same tile twice restores its status and the counter. */
  lemma ToggleTwice(n: int, t: TileStatus)
    requires 0 <= n <= UINT_MAX
    ensures Toggle(Toggle(t)) == t
    ensures FlagCounter(FlagCounter(n, t), Toggle(t)) == n
  {
    if t == Normal && n == UINT_MAX {
      assert FlagCounter(n, t) == 0;
    } else if t == Flag && n == 0 {
      assert FlagCounter(n, t) == UINT_MAX;
    }
  }

  /**
   * numFlagged keeps counting the flags on the board: on a board of at most
   * UINT_MAX tiles a right click never wraps the counter around.
   */
  lemma FlagCounterTracks(s: seq<TileStatus>, k: int, n: int)
    requires 0 <= k < |s| <= UINT_MAX && n == FlagCount(s)
    ensures FlagCounter(n, s[k]) == FlagCount(s[k := Toggle(s[k])])
  {
    var m := StatusMask(s, Flag);
    var t := Toggle(s[k]);
    assert StatusMask(s[k := t], Flag) == m[k := (t == Flag)];
    CountUpdate(m, k, t == Flag);
    if s[k] == Normal {
      assert Count(m[k := true]) <= |s|;
    }
  }

  /** Flagging changes one tile only, and never a Revealed or Held one. */
  lemma RightClickTouchesOneTile(s: seq<TileStatus>, k: int)
    requires 0 <= k < |s|
    ensures forall i :: 0 <= i < |s| && i != k ==> s[k := Toggle(s[k])][i] == s[i]
    ensures s[k] == Revealed || s[k] == Held ==> s[k := Toggle(s[k])] == s
  {
  }

  // ---------------------------------------------------------------
  // The first click: MineMouse_FirstClick
  // ---------------------------------------------------------------

  /** j is a tile the first click may move the mine to: another tile, and not a mine. */
  predicate MineTarget(b0: seq<int>, i: int, j: int) {
    0 <= j < |b0| && j != i && b0[j] != BOMB
  }

  /**
   * The board after the relocation loop of MineMouse_FirstClick, before the
   * numbers are assigned: a mine on the clicked tile i is moved to another
   * tile that is not a mine; when the generator fails first, that mine is
   * lost. A board without a mine at i is untouched.
   */
  ghost predicate Relocation(b0: seq<int>, i: int, status: MineError, placed: seq<int>)
    requires 0 <= i < |b0|
  {
    if b0[i] != BOMB then status == Success && placed == b0
    else if status == Success then exists j :: MineTarget(b0, i, j) && placed == b0[i := 0][j := BOMB]
    else status == ErrRandNumber && placed == b0[i := 0]
  }

  /** A successful relocation keeps every other mine, the number of mines, and clears the clicked tile. */
  lemma RelocationKeepsMines(b0: seq<int>, i: int, placed: seq<int>)
    requires 0 <= i < |b0| && Relocation(b0, i, Success, placed)
    ensures |placed| == |b0| && placed[i] != BOMB && BombCount(placed) == BombCount(b0)
    ensures forall k :: 0 <= k < |b0| && k != i && b0[k] == BOMB ==> placed[k] == BOMB
  {
    if b0[i] == BOMB {
      var j :| MineTarget(b0, i, j) && placed == b0[i := 0][j := BOMB];
      var m := BombMask(b0);
      assert BombMask(b0[i := 0]) == m[i := false];
      CountUpdate(m, i, false);
      assert BombMask(placed) == m[i := false][j := true];
      CountUpdate(m[i := false], j, true);
    }
  }

  /** A failed relocation loses the mine of the clicked tile. */
  lemma RelocationFailureLosesMine(b0: seq<int>, i: int, status: MineError, placed: seq<int>)
    requires 0 <= i < |b0| && Relocation(b0, i, status, placed) && status != Success
    ensures b0[i] == BOMB && BombCount(placed) == BombCount(b0) - 1
  {
    var m := BombMask(b0);
    assert BombMask(placed) == m[i := false];
    CountUpdate(m, i, false);
  }

  /** MineMouse_FirstClick's outcome: the numbered board is safe at the clicked tile, has as many mines as before, and its numbers are consistent. */
  lemma FirstClickBoard(l: Layout, b0: seq<int>, i: int, placed: seq<int>, b1: seq<int>)
    requires l.Valid() && |b0| == l.Size() && 0 <= i < |b0| && Relocation(b0, i, Success, placed)
    requires b1 == Renumber(l, placed, 0, l.width - 1, 0, l.height - 1)
    ensures b1[i] != BOMB && BombCount(b1) == BombCount(b0)
    ensures NumbersConsistent(l, b1)
  {
    RelocationKeepsMines(b0, i, placed);
    assert BombMask(b1)[i] == BombMask(placed)[i];
    FullRenumberConsistent(l, placed);
  }

  /** Relocation keeps every value a mine or a count. */
  lemma RelocationValues(b0: seq<int>, i: int, status: MineError, placed: seq<int>)
    requires 0 <= i < |b0| && Relocation(b0, i, status, placed)
    requires forall k :: 0 <= k < |b0| ==> IsBoardValue(b0[k])
    ensures |placed| == |b0| && forall k :: 0 <= k < |placed| ==> IsBoardValue(placed[k])
  {
  }

  /**
   * MineMouse_FirstClick at the cell (x, y): move a mine off the clicked
   * tile to a random tile that is neither a mine nor the clicked tile, then
   * number the whole board and start the clock. On a generator error the
   * game does not start.
   */
  method FirstClick(g: GameData, menu: MenuSettings, rng: RandomSource, x: int, y: int, now: int)
    returns (status: MineError, ghost placed: seq<int>)
    requires g.Valid() && g.Lay(menu).InGrid(x, y) && 0 <= now < ULONGLONG_RANGE
    modifies g.gameBoard, rng, g`gameStarted, g`gameStartTime
    ensures g.Valid()
    ensures Relocation(old(g.gameBoard[..]), g.Lay(menu).Index(x, y), status, placed)
    ensures status == Success ==>
      g.gameBoard[..] == Renumber(g.Lay(menu), placed, 0, g.width - 1, 0, g.height - 1) && g.gameStarted && g.gameStartTime == now
    ensures status != Success ==>
      g.gameBoard[..] == placed && g.gameStarted == old(g.gameStarted) && g.gameStartTime == old(g.gameStartTime)
  {
    var l := g.Lay(menu);
    var i := l.Index(x, y);
    ghost var b0 := g.gameBoard[..];
    status, placed := MoveMineOff(g.gameBoard, l, rng, i);
    RelocationValues(b0, i, status, placed);
    if status != Success {
      return;
    }
    // Numbering the whole (non-empty) board cannot fail.
    status := AssignNumbers(g, menu, 0, g.width - 1, 0, g.height - 1);
    g.gameStarted := true;
    g.gameStartTime := now;
  }

  /** The relocation loop of MineMouse_FirstClick: draw random cells until one is neither a mine nor the clicked tile i. */
  method MoveMineOff(board: array<int>, l: Layout, rng: RandomSource, i: int) returns (status: MineError, ghost placed: seq<int>)
    requires l.Valid() && board.Length == l.Size() && 0 <= i < board.Length
    requires l.width <= UINT_MAX && l.height <= UINT_MAX
    modifies board, rng
    ensures Relocation(old(board[..]), i, status, placed) && board[..] == placed
  {
    ghost var b0 := board[..];
    var needToPlace := false;
    status := Success;
    if board[i] == BOMB {
      board[i] := 0;
      needToPlace := true;
    }
    placed := board[..];
    while needToPlace
      invariant status == Success && placed == board[..]
      invariant needToPlace ==> b0[i] == BOMB && placed == b0[i := 0]
      invariant !needToPlace ==> Relocation(b0, i, Success, placed)
      decreases |rng.samples|
    {
      var newXGrid, newYGrid;
      status, newXGrid := rng.Random(l.width);
      if status != Success {
        break;
      }
      status, newYGrid := rng.Random(l.height);
      if status != Success {
        break;
      }
      var k := l.Index(newXGrid, newYGrid);
      if board[k] != BOMB && i != k {
        board[k] := BOMB;
        placed := board[..];
        assert MineTarget(b0, i, k);
        needToPlace := false;
      }
    }
  }

  // ---------------------------------------------------------------
  // Releasing the left button: MineMouse_ProcessLeftClick
  // ---------------------------------------------------------------

  /** The board after the first click's part of a left click, as the game started or not. */
  ghost predicate FirstClicked(l: Layout, b0: seq<int>, i: int, started: bool, placed: seq<int>, b1: seq<int>)
    requires l.Valid() && |b0| == l.Size() && 0 <= i < |b0|
  {
    if started then Relocation(b0, i, Success, placed) && b1 == Renumber(l, placed, 0, l.width - 1, 0, l.height - 1)
    else Relocation(b0, i, ErrRandNumber, placed) && b1 == placed
  }

  /**
   * What the left click at (x, y) does to the play from p0 (the tiles once
   * the held tile is released) to p1: a Normal tile is uncovered, any other
   * tile is left alone, and on the first click no mine is touched.
   */
  ghost predicate LeftClicked(r: Run, p0: Play, p1: Play, x: int, y: int, first: bool) {
    && r.lay.Valid() && r.lay.InGrid(x, y) && |p0.status| == r.lay.Size() == |r.board|
    && (p0.status[r.lay.Index(x, y)] == Normal ==> Uncovered(r, p0, p1, x, y, first))
    && (p0.status[r.lay.Index(x, y)] != Normal ==> p1 == p0)
    && (first ==> r.board[r.lay.Index(x, y)] != BOMB && NumbersConsistent(r.lay, r.board) && SafeProgress(r, p0, p1))
  }

  /**
   * MineMouse_ProcessLeftClick at the cell (x, y): release the held tile,
   * run the first click if the game has not started (its error is
   * ignored), then uncover the tile if it is Normal. released is the play
   * once the held tile is released, placed the board after the first
   * click's relocation, and first says that the first click succeeded now.
   */
  method ProcessLeftClick(g: GameData, menu: MenuSettings, rng: RandomSource, x: int, y: int, now: int)
    returns (ghost released: Play, ghost placed: seq<int>, ghost first: bool)
    requires g.Valid() && g.Lay(menu).InGrid(x, y) && 0 <= now < ULONGLONG_RANGE
    modifies g.tileStatus, g.gameBoard, rng, g`gameStarted, g`gameStartTime, g`prevGridX, g`prevGridY
    modifies g`numUncovered, g`gameOver, g`gameWon, g`numFlagged, g`time
    ensures g.Valid() && PrevOf(g) == (-1, -1)
    ensures released == old(PlayOf(g)).(status := ReleaseTile(g.Lay(menu), old(g.tileStatus[..]), old(PrevOf(g))))
    ensures old(g.gameStarted) ==> g.gameStarted && !first && g.gameBoard[..] == old(g.gameBoard[..])
    ensures !old(g.gameStarted) ==>
      first == g.gameStarted && FirstClicked(g.Lay(menu), old(g.gameBoard[..]), g.Lay(menu).Index(x, y), first, placed, g.gameBoard[..])
    ensures LeftClicked(RunOf(g, menu, now), released, PlayOf(g), x, y, first)
  {
    ReleasePrevTile(g, menu);
    released := PlayOf(g);
    placed, first := ClickTile(g, menu, rng, x, y, now);
  }

  /** MineMouse_ProcessLeftClick after the release: the first click, then the uncovering. */
  method ClickTile(g: GameData, menu: MenuSettings, rng: RandomSource, x: int, y: int, now: int)
    returns (ghost placed: seq<int>, ghost first: bool)
    requires g.Valid() && g.Lay(menu).InGrid(x, y) && 0 <= now < ULONGLONG_RANGE
    modifies g.tileStatus, g.gameBoard, rng, g`gameStarted, g`gameStartTime
    modifies g`numUncovered, g`gameOver, g`gameWon, g`numFlagged, g`time
    ensures g.Valid()
    ensures old(g.gameStarted) ==> g.gameStarted && !first && g.gameBoard[..] == old(g.gameBoard[..])
    ensures !old(g.gameStarted) ==>
      first == g.gameStarted && FirstClicked(g.Lay(menu), old(g.gameBoard[..]), g.Lay(menu).Index(x, y), first, placed, g.gameBoard[..])
    ensures LeftClicked(RunOf(g, menu, now), old(PlayOf(g)), PlayOf(g), x, y, first)
  {
    placed, first := StartGame(g, menu, rng, x, y, now);
    UncoverClicked(g, menu, x, y, now, RunOf(g, menu, now), first);
  }

  /** The first-click part of MineMouse_ProcessLeftClick: FirstClick when the game has not started yet. */
  method StartGame(g: GameData, menu: MenuSettings, rng: RandomSource, x: int, y: int, now: int)
    returns (ghost placed: seq<int>, ghost first: bool)
    requires g.Valid() && g.Lay(menu).InGrid(x, y) && 0 <= now < ULONGLONG_RANGE
    modifies g.gameBoard, rng, g`gameStarted, g`gameStartTime
    ensures g.Valid()
    ensures old(g.gameStarted) ==> g.gameStarted && !first && g.gameBoard[..] == old(g.gameBoard[..])
    ensures !old(g.gameStarted) ==>
      first == g.gameStarted && FirstClicked(g.Lay(menu), old(g.gameBoard[..]), g.Lay(menu).Index(x, y), first, placed, g.gameBoard[..])
    ensures first ==> g.gameBoard[g.Lay(menu).Index(x, y)] != BOMB && NumbersConsistent(g.Lay(menu), g.gameBoard[..])
    ensures PlayOf(g) == old(PlayOf(g))
  {
    var l := g.Lay(menu);
    var idx := l.Index(x, y);
    ghost var b0 := g.gameBoard[..];
    placed := b0;
    first := false;
    if !g.gameStarted {
      var status;
      status, placed := FirstClick(g, menu, rng, x, y, now);
      first := status == Success;
      if first {
        FirstClickBoard(l, b0, idx, placed, g.gameBoard[..]);
      }
      assert FirstClicked(l, b0, idx, first, placed, g.gameBoard[..]);
    }
  }

  /** The last part of MineMouse_ProcessLeftClick: uncover the tile (x, y) if it is Normal. */
  method UncoverClicked(g: GameData, menu: MenuSettings, x: int, y: int, now: int, ghost run: Run, ghost first: bool)
    requires g.Valid() && run == RunOf(g, menu, now) && 0 <= now < ULONGLONG_RANGE
    requires run.lay.InGrid(x, y)
    requires first ==> NumbersConsistent(run.lay, run.board) && run.board[run.lay.Index(x, y)] != BOMB
    modifies g.tileStatus, g`numUncovered, g`gameOver, g`gameWon, g`numFlagged, g`time
    ensures g.Valid()
    ensures LeftClicked(run, old(PlayOf(g)), PlayOf(g), x, y, first)
    ensures RunOf(g, menu, now) == run
  {
    var idx := g.Lay(menu).Index(x, y);
    ghost var p0 := PlayOf(g);
    if g.tileStatus[idx] == Normal {
      UncoverTile(g, menu, x, y, now, run, first);
    } else {
      ProgressRefl(run, p0);
    }
  }

  // ---------------------------------------------------------------
  // Releasing a double click: MineMouse_ProcessDoubleClick
  // ---------------------------------------------------------------

  /**
   * What the chord at (x, y) does to the play from p0 (the tiles once the
   * held block is released) to p1: it fires exactly when the tile is
   * Revealed and its number equals the flags around it, and then every
   * Normal tile of the block is uncovered; otherwise nothing changes.
   */
  ghost predicate Chorded(r: Run, p0: Play, p1: Play, x: int, y: int, chord: bool) {
    && r.lay.Valid() && r.lay.InGrid(x, y) && |p0.status| == r.lay.Size() == |r.board|
    && chord == (p0.status[r.lay.Index(x, y)] == Revealed && FlagsAround(r.lay, p0.status, x, y) == r.board[r.lay.Index(x, y)])
    && (chord ==> Surrounded(r, p0, p1, x, y, false))
    && (!chord ==> p1 == p0)
  }

  /**
   * MineMouse_ProcessDoubleClick at the cell (x, y): release the held block,
   * then, on a Revealed tile whose number equals the flags around it,
   * uncover every Normal tile around it (the chord).
   */
  method ProcessDoubleClick(g: GameData, menu: MenuSettings, x: int, y: int, now: int) returns (chord: bool, ghost released: Play)
    requires g.Valid() && g.Lay(menu).InGrid(x, y) && 0 <= now < ULONGLONG_RANGE
    modifies g.tileStatus, g`prevGridX, g`prevGridY, g`numUncovered, g`gameOver, g`gameWon, g`numFlagged, g`time
    ensures g.Valid() && PrevOf(g) == (-1, -1)
    ensures released == old(PlayOf(g)).(status := ReleaseBlock(g.Lay(menu), old(g.tileStatus[..]), old(PrevOf(g))))
    ensures Chorded(RunOf(g, menu, now), released, PlayOf(g), x, y, chord)
  {
    ReleasePrevBlock(g, menu);
    released := PlayOf(g);
    chord := Chord(g, menu, x, y, now, RunOf(g, menu, now));
  }

  /** The chord of MineMouse_ProcessDoubleClick, once the held block is released. */
  method Chord(g: GameData, menu: MenuSettings, x: int, y: int, now: int, ghost run: Run) returns (chord: bool)
    requires g.Valid() && run == RunOf(g, menu, now) && run.lay.InGrid(x, y) && 0 <= now < ULONGLONG_RANGE
    modifies g.tileStatus, g`numUncovered, g`gameOver, g`gameWon, g`numFlagged, g`time
    ensures g.Valid()
    ensures Chorded(run, old(PlayOf(g)), PlayOf(g), x, y, chord)
  {
    var idx := g.Lay(menu).Index(x, y);
    chord := false;
    if g.tileStatus[idx] == Revealed {
      var boardNumber := g.gameBoard[idx];
      var flagCount := CountFlags(g, menu, x, y);
      if flagCount == boardNumber {
        chord := true;
        UncoverAround(g, menu, x, y, now, run, false);
      }
    }
  }

}
