/**
 * The meaning of a board: which cells hold mines, the neighbour count of a
 * cell as the counting loops compute it (wrap rule included), the board a
 * renumbering of a rectangle produces, and the counters over tile statuses.
 */
module BoardSpec {
  import opened MineDefs

  // ---------------------------------------------------------------
  // Counting marked cells
  // ---------------------------------------------------------------

  /** The number of marked positions. */
  function Count(m: seq<bool>): (n: nat)
    ensures n <= |m|
  {
    if |m| == 0 then 0 else Count(m[..|m| - 1]) + (if m[|m| - 1] then 1 else 0)
  }

  /** Changing one mark changes the count by exactly that mark's contribution. */
  lemma {:induction false} CountUpdate(m: seq<bool>, i: int, v: bool)
    requires 0 <= i < |m|
    ensures Count(m[i := v]) == Count(m) - (if m[i] then 1 else 0) + (if v then 1 else 0)
    decreases |m|
  {
    var k := |m| - 1;
    if i == k {
      assert m[i := v][..k] == m[..k];
    } else {
      assert m[i := v][..k] == m[..k][i := v];
      CountUpdate(m[..k], i, v);
    }
  }

  /** A mark set that includes another has at least its count; equal counts mean equal marks. */
  lemma {:induction false} CountMonotone(m1: seq<bool>, m2: seq<bool>)
    requires |m1| == |m2|
    requires forall i :: 0 <= i < |m1| && m1[i] ==> m2[i]
    ensures Count(m1) <= Count(m2)
    ensures Count(m1) == Count(m2) ==> m1 == m2
    decreases |m1|
  {
    if |m1| > 0 {
      var k := |m1| - 1;
      CountMonotone(m1[..k], m2[..k]);
      if Count(m1) == Count(m2) {
        assert m1[..k] == m2[..k];
        assert m1 == m1[..k] + [m1[k]] && m2 == m2[..k] + [m2[k]];
      }
    }
  }

  /** Which cells of a board hold a mine. */
  function BombMask(b: seq<int>): seq<bool> {
    seq(|b|, i requires 0 <= i < |b| => b[i] == BOMB)
  }

  /** Which tiles have status t. */
  function StatusMask(s: seq<TileStatus>, t: TileStatus): seq<bool> {
    seq(|s|, i requires 0 <= i < |s| => s[i] == t)
  }

  function BombCount(b: seq<int>): nat {
    Count(BombMask(b))
  }

  function NormalCount(s: seq<TileStatus>): nat {
    Count(StatusMask(s, Normal))
  }

  /** The number of revealed tiles that are not mines (what numUncovered counts). */
  function RevealedSafe(b: seq<int>, s: seq<TileStatus>): nat
    requires |b| == |s|
  {
    Count(seq(|b|, i requires 0 <= i < |b| => s[i] == Revealed && b[i] != BOMB))
  }

  /** The number of revealed tiles that are mines. */
  function RevealedBombs(b: seq<int>, s: seq<TileStatus>): nat
    requires |b| == |s|
  {
    Count(seq(|b|, i requires 0 <= i < |b| => s[i] == Revealed && b[i] == BOMB))
  }

  /** Revealing one Normal tile lowers the Normal count by one and raises exactly one of the two revealed counters. */
  lemma RevealOne(b: seq<int>, s: seq<TileStatus>, i: int)
    requires |b| == |s| && 0 <= i < |s| && s[i] == Normal
    ensures NormalCount(s[i := Revealed]) == NormalCount(s) - 1
    ensures RevealedSafe(b, s[i := Revealed]) == RevealedSafe(b, s) + (if b[i] == BOMB then 0 else 1)
    ensures RevealedBombs(b, s[i := Revealed]) == RevealedBombs(b, s) + (if b[i] == BOMB then 1 else 0)
  {
    var s' := s[i := Revealed];
    assert StatusMask(s', Normal) == StatusMask(s, Normal)[i := false];
    CountUpdate(StatusMask(s, Normal), i, false);
    var safe := seq(|b|, j requires 0 <= j < |b| => s[j] == Revealed && b[j] != BOMB);
    assert seq(|b|, j requires 0 <= j < |b| => s'[j] == Revealed && b[j] != BOMB) == safe[i := b[i] != BOMB];
    CountUpdate(safe, i, b[i] != BOMB);
    var bombs := seq(|b|, j requires 0 <= j < |b| => s[j] == Revealed && b[j] == BOMB);
    assert seq(|b|, j requires 0 <= j < |b| => s'[j] == Revealed && b[j] == BOMB) == bombs[i := b[i] == BOMB];
    CountUpdate(bombs, i, b[i] == BOMB);
  }

  /** The safe tiles never outnumber the tiles that are not mines. */
  lemma {:induction false} RevealedSafeBound(b: seq<int>, s: seq<TileStatus>)
    requires |b| == |s|
    ensures RevealedSafe(b, s) <= |b| - BombCount(b)
    decreases |b|
  {
    if |b| > 0 {
      var k := |b| - 1;
      RevealedSafeBound(b[..k], s[..k]);
      assert seq(k, i requires 0 <= i < k => s[..k][i] == Revealed && b[..k][i] != BOMB)
          == seq(|b|, i requires 0 <= i < |b| => s[i] == Revealed && b[i] != BOMB)[..k];
      assert BombMask(b[..k]) == BombMask(b)[..k];
    }
  }

  // ---------------------------------------------------------------
  // Counting around a cell, in the order of the neighbour loops
  // ---------------------------------------------------------------

  /** Whether the loops look at offset (dx, dy) and find it marked. */
  function CellMark(l: Layout, m: seq<bool>, x: int, y: int, dx: int, dy: int, skipSelf: bool): nat
    requires l.Valid() && |m| == l.Size()
  {
    if skipSelf && dx == 0 && dy == 0 then 0
    else match l.Neighbour(x, y, dx, dy)
      case None => 0
      case Some(c) => if m[l.Index(c.0, c.1)] then 1 else 0
  }

  /** A visited, in-grid neighbour contributes its own mark. */
  lemma CellMarkAt(l: Layout, m: seq<bool>, x: int, y: int, dx: int, dy: int, skipSelf: bool, nx: int, ny: int)
    requires l.Valid() && |m| == l.Size() && !(skipSelf && dx == 0 && dy == 0)
    requires Wrap(x + dx, l.width, l.wrapHorz) == Some(nx) && Wrap(y + dy, l.height, l.wrapVert) == Some(ny)
    ensures l.InGrid(nx, ny)
    ensures CellMark(l, m, x, y, dx, dy, skipSelf) == if m[l.Index(nx, ny)] then 1 else 0
  {
  }

  /** The centre (when skipped) and a neighbour the wrap rule drops contribute nothing. */
  lemma CellMarkSkipped(l: Layout, m: seq<bool>, x: int, y: int, dx: int, dy: int, skipSelf: bool)
    requires l.Valid() && |m| == l.Size()
    requires (skipSelf && dx == 0 && dy == 0) || Wrap(x + dx, l.width, l.wrapHorz).None? || Wrap(y + dy, l.height, l.wrapVert).None?
    ensures CellMark(l, m, x, y, dx, dy, skipSelf) == 0
  {
  }

  /** Marks found at offsets (dx, dy), (dx, dy+1), ..., (dx, 1). */
  function RowsFrom(l: Layout, m: seq<bool>, x: int, y: int, dx: int, dy: int, skipSelf: bool): nat
    requires l.Valid() && |m| == l.Size() && -1 <= dy <= 2
    decreases 2 - dy
  {
    if dy > 1 then 0 else CellMark(l, m, x, y, dx, dy, skipSelf) + RowsFrom(l, m, x, y, dx, dy + 1, skipSelf)
  }

  /** Marks found in the columns dx, dx+1, ..., 1 of the block. */
  function ColsFrom(l: Layout, m: seq<bool>, x: int, y: int, dx: int, skipSelf: bool): nat
    requires l.Valid() && |m| == l.Size() && -1 <= dx <= 2
    decreases 2 - dx
  {
    if dx > 1 then 0 else RowsFrom(l, m, x, y, dx, -1, skipSelf) + ColsFrom(l, m, x, y, dx + 1, skipSelf)
  }

  /** Marks in the 3x3 block around (x, y), the centre excluded when skipSelf. */
  function BlockCount(l: Layout, m: seq<bool>, x: int, y: int, skipSelf: bool): nat
    requires l.Valid() && |m| == l.Size()
  {
    ColsFrom(l, m, x, y, -1, skipSelf)
  }

  /** The number a safe cell shows: the mines among its (up to eight) neighbours. */
  function NeighbourMines(l: Layout, b: seq<int>, x: int, y: int): nat
    requires l.Valid() && |b| == l.Size()
  {
    BlockCount(l, BombMask(b), x, y, true)
  }

  /** The flags in the 3x3 block around (x, y), the centre included. */
  function FlagsAround(l: Layout, s: seq<TileStatus>, x: int, y: int): nat
    requires l.Valid() && |s| == l.Size()
  {
    BlockCount(l, StatusMask(s, Flag), x, y, false)
  }

  /** When the column x+dx is skipped by the wrap rule, the whole column contributes nothing. */
  lemma {:induction false} RowsFromSkipped(l: Layout, m: seq<bool>, x: int, y: int, dx: int, dy: int, skipSelf: bool)
    requires l.Valid() && |m| == l.Size() && -1 <= dy <= 2
    requires Wrap(x + dx, l.width, l.wrapHorz).None?
    ensures RowsFrom(l, m, x, y, dx, dy, skipSelf) == 0
    decreases 2 - dy
  {
    if dy <= 1 {
      RowsFromSkipped(l, m, x, y, dx, dy + 1, skipSelf);
    }
  }

  /** A column of the block holds at most its three cells, two for the centre column when the centre is skipped. */
  lemma {:induction false} RowsFromBound(l: Layout, m: seq<bool>, x: int, y: int, dx: int, dy: int, skipSelf: bool)
    requires l.Valid() && |m| == l.Size() && -1 <= dy <= 2
    ensures RowsFrom(l, m, x, y, dx, dy, skipSelf) <= 2 - dy - (if skipSelf && dx == 0 && dy <= 0 then 1 else 0)
    decreases 2 - dy
  {
    if dy <= 1 {
      RowsFromBound(l, m, x, y, dx, dy + 1, skipSelf);
    }
  }

  lemma {:induction false} ColsFromBound(l: Layout, m: seq<bool>, x: int, y: int, dx: int, skipSelf: bool)
    requires l.Valid() && |m| == l.Size() && -1 <= dx <= 2
    ensures ColsFrom(l, m, x, y, dx, skipSelf) <= 3 * (2 - dx) - (if skipSelf && dx <= 0 then 1 else 0)
    decreases 2 - dx
  {
    if dx <= 1 {
      RowsFromBound(l, m, x, y, dx, -1, skipSelf);
      ColsFromBound(l, m, x, y, dx + 1, skipSelf);
    }
  }

  /** A neighbour count is at most 8, a block count with the centre at most 9. */
  lemma BlockCountBound(l: Layout, m: seq<bool>, x: int, y: int, skipSelf: bool)
    requires l.Valid() && |m| == l.Size()
    ensures BlockCount(l, m, x, y, skipSelf) <= (if skipSelf then 8 else 9)
  {
    ColsFromBound(l, m, x, y, -1, skipSelf);
  }

  /** No marked cell among the offsets the loops visit. */
  ghost predicate NoMarkedNeighbour(l: Layout, m: seq<bool>, x: int, y: int, skipSelf: bool)
    requires l.Valid() && |m| == l.Size()
  {
    forall dx, dy :: -1 <= dx <= 1 && -1 <= dy <= 1 && !(skipSelf && dx == 0 && dy == 0) && l.Neighbour(x, y, dx, dy).Some? ==>
      !m[l.Index(l.Neighbour(x, y, dx, dy).value.0, l.Neighbour(x, y, dx, dy).value.1)]
  }

  /** One instance of NoMarkedNeighbour: the neighbour at offset (dx, dy) is not marked. */
  lemma NoMarkedAt(l: Layout, m: seq<bool>, x: int, y: int, skipSelf: bool, dx: int, dy: int, nx: int, ny: int)
    requires l.Valid() && |m| == l.Size() && NoMarkedNeighbour(l, m, x, y, skipSelf)
    requires -1 <= dx <= 1 && -1 <= dy <= 1 && !(skipSelf && dx == 0 && dy == 0)
    requires l.Neighbour(x, y, dx, dy) == Some((nx, ny))
    ensures l.InGrid(nx, ny) && !m[l.Index(nx, ny)]
  {
  }

  lemma {:induction false} RowsFromZero(l: Layout, m: seq<bool>, x: int, y: int, dx: int, dy: int, skipSelf: bool)
    requires l.Valid() && |m| == l.Size() && -1 <= dy <= 2
    ensures RowsFrom(l, m, x, y, dx, dy, skipSelf) == 0 <==>
      forall e :: dy <= e <= 1 ==> CellMark(l, m, x, y, dx, e, skipSelf) == 0
    decreases 2 - dy
  {
    if dy <= 1 {
      RowsFromZero(l, m, x, y, dx, dy + 1, skipSelf);
    }
  }

  lemma {:induction false} ColsFromZero(l: Layout, m: seq<bool>, x: int, y: int, dx: int, skipSelf: bool)
    requires l.Valid() && |m| == l.Size() && -1 <= dx <= 2
    ensures ColsFrom(l, m, x, y, dx, skipSelf) == 0 <==>
      forall d, e :: dx <= d <= 1 && -1 <= e <= 1 ==> CellMark(l, m, x, y, d, e, skipSelf) == 0
    decreases 2 - dx
  {
    if dx <= 1 {
      RowsFromZero(l, m, x, y, dx, -1, skipSelf);
      ColsFromZero(l, m, x, y, dx + 1, skipSelf);
    }
  }

  /** A block count is zero exactly when no visited neighbour is marked. */
  lemma BlockCountZero(l: Layout, m: seq<bool>, x: int, y: int, skipSelf: bool)
    requires l.Valid() && |m| == l.Size()
    ensures BlockCount(l, m, x, y, skipSelf) == 0 <==> NoMarkedNeighbour(l, m, x, y, skipSelf)
  {
    ColsFromZero(l, m, x, y, -1, skipSelf);
    if BlockCount(l, m, x, y, skipSelf) == 0 {
      forall dx, dy | -1 <= dx <= 1 && -1 <= dy <= 1 && !(skipSelf && dx == 0 && dy == 0) && l.Neighbour(x, y, dx, dy).Some?
        ensures !m[l.Index(l.Neighbour(x, y, dx, dy).value.0, l.Neighbour(x, y, dx, dy).value.1)]
      {
        assert CellMark(l, m, x, y, dx, dy, skipSelf) == 0;
      }
    } else {
      var d, e :| -1 <= d <= 1 && -1 <= e <= 1 && CellMark(l, m, x, y, d, e, skipSelf) != 0;
      assert l.Neighbour(x, y, d, e).Some?;
    }
  }

  lemma {:induction false} RowsFromLocal(l: Layout, m1: seq<bool>, m2: seq<bool>, x: int, y: int, dx: int, dy: int, skipSelf: bool)
    requires l.Valid() && |m1| == l.Size() && |m2| == l.Size() && -1 <= dy <= 2
    requires forall e :: dy <= e <= 1 ==> CellMark(l, m1, x, y, dx, e, skipSelf) == CellMark(l, m2, x, y, dx, e, skipSelf)
    ensures RowsFrom(l, m1, x, y, dx, dy, skipSelf) == RowsFrom(l, m2, x, y, dx, dy, skipSelf)
    decreases 2 - dy
  {
    if dy <= 1 {
      RowsFromLocal(l, m1, m2, x, y, dx, dy + 1, skipSelf);
    }
  }

  /** A block count depends only on the marks of the cells the loops visit. */
  lemma BlockCountLocal(l: Layout, m1: seq<bool>, m2: seq<bool>, x: int, y: int, skipSelf: bool)
    requires l.Valid() && |m1| == l.Size() && |m2| == l.Size()
    requires forall dx, dy :: -1 <= dx <= 1 && -1 <= dy <= 1 && l.Neighbour(x, y, dx, dy).Some? ==>
      var c := l.Neighbour(x, y, dx, dy).value; m1[l.Index(c.0, c.1)] == m2[l.Index(c.0, c.1)]
    ensures BlockCount(l, m1, x, y, skipSelf) == BlockCount(l, m2, x, y, skipSelf)
  {
    RowsFromLocal(l, m1, m2, x, y, -1, -1, skipSelf);
    RowsFromLocal(l, m1, m2, x, y, 0, -1, skipSelf);
    RowsFromLocal(l, m1, m2, x, y, 1, -1, skipSelf);
  }

  // ---------------------------------------------------------------
  // Consistent numbers and renumbering a rectangle
  // ---------------------------------------------------------------

  /** The cell stored at index i is a mine or holds its neighbour count. */
  ghost predicate ConsistentAt(l: Layout, b: seq<int>, i: int)
    requires l.Valid() && |b| == l.Size() && 0 <= i < |b|
  {
    b[i] != BOMB ==> b[i] == NeighbourMines(l, b, l.CellOf(i).0, l.CellOf(i).1)
  }

  /** Every safe cell holds its neighbour count. */
  ghost predicate NumbersConsistent(l: Layout, b: seq<int>)
    requires l.Valid() && |b| == l.Size()
  {
    forall i :: 0 <= i < |b| ==> ConsistentAt(l, b, i)
  }

  /** Clamp one bound of the rectangle to the board, as Mine_AssignNumbers does first. */
  function ClampToGrid(v: int, dim: int): (r: int)
    requires dim > 0
    ensures 0 <= r < dim
    ensures 0 <= v < dim ==> r == v
  {
    if v < 0 then 0 else if v > dim - 1 then dim - 1 else v
  }

  predicate InRect(x: int, y: int, xlo: int, xhi: int, ylo: int, yhi: int) {
    xlo <= x <= xhi && ylo <= y <= yhi
  }

  /** The board after every safe cell (x, y) of the rectangle is given its neighbour count. */
  function Renumber(l: Layout, b: seq<int>, xlo: int, xhi: int, ylo: int, yhi: int): (r: seq<int>)
    requires l.Valid() && |b| == l.Size()
    ensures |r| == |b|
    ensures BombMask(r) == BombMask(b)
    ensures forall i :: 0 <= i < |b| && !InRect(l.CellOf(i).0, l.CellOf(i).1, xlo, xhi, ylo, yhi) ==> r[i] == b[i]
  {
    seq(|b|, i requires 0 <= i < |b| =>
      var c := l.CellOf(i);
      if b[i] != BOMB && InRect(c.0, c.1, xlo, xhi, ylo, yhi) then NeighbourMines(l, b, c.0, c.1) else b[i])
  }

  /** The value Renumber gives the cell at logical coordinates (x, y). */
  lemma RenumberAt(l: Layout, b: seq<int>, xlo: int, xhi: int, ylo: int, yhi: int, x: int, y: int)
    requires l.Valid() && |b| == l.Size() && l.InGrid(x, y)
    ensures Renumber(l, b, xlo, xhi, ylo, yhi)[l.Index(x, y)] ==
      if b[l.Index(x, y)] != BOMB && InRect(x, y, xlo, xhi, ylo, yhi) then NeighbourMines(l, b, x, y) else b[l.Index(x, y)]
  {
    l.CellOfIndex(x, y);
  }

  /** Renumbering leaves every value a mine or a count 0..8. */
  lemma RenumberValues(l: Layout, b: seq<int>, xlo: int, xhi: int, ylo: int, yhi: int)
    requires l.Valid() && |b| == l.Size()
    requires forall i :: 0 <= i < |b| ==> IsBoardValue(b[i])
    ensures forall i :: 0 <= i < |b| ==> IsBoardValue(Renumber(l, b, xlo, xhi, ylo, yhi)[i])
  {
    forall i | 0 <= i < |b|
      ensures IsBoardValue(Renumber(l, b, xlo, xhi, ylo, yhi)[i])
    {
      var c := l.CellOf(i);
      BlockCountBound(l, BombMask(b), c.0, c.1, true);
    }
  }

  /** Renumbering the whole board makes every number consistent. */
  lemma FullRenumberConsistent(l: Layout, b: seq<int>)
    requires l.Valid() && |b| == l.Size()
    ensures NumbersConsistent(l, Renumber(l, b, 0, l.width - 1, 0, l.height - 1))
  {
  }

  /** Renumbering a rectangle twice is renumbering it once. */
  lemma RenumberIdempotent(l: Layout, b: seq<int>, xlo: int, xhi: int, ylo: int, yhi: int)
    requires l.Valid() && |b| == l.Size()
    ensures var r := Renumber(l, b, xlo, xhi, ylo, yhi); Renumber(l, r, xlo, xhi, ylo, yhi) == r
  {
  }

  /** A board is consistent exactly when renumbering the whole of it changes nothing. */
  lemma ConsistentIffFixpoint(l: Layout, b: seq<int>)
    requires l.Valid() && |b| == l.Size()
    ensures NumbersConsistent(l, b) <==> Renumber(l, b, 0, l.width - 1, 0, l.height - 1) == b
  {
    var r := Renumber(l, b, 0, l.width - 1, 0, l.height - 1);
    if NumbersConsistent(l, b) {
      forall i | 0 <= i < |b|
        ensures r[i] == b[i]
      {
        assert ConsistentAt(l, b, i);
      }
      assert r == b;
    }
    if r == b {
      FullRenumberConsistent(l, b);
    }
  }
}
