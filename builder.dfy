/**
 * The `builder` package's product `TabletopProduct`: a board of `height` rows
 * and `width` columns holding terrain cells, a piece grid and the list of
 * pieces. The grid is an `array2` whose first index is the row, as in
 * `pieceGrid[y][x]`; the piece list is a sequence that the methods reassign.
 * The functions over `Grid` (one sequence per row) say what each method does
 * to the grid.
 */
module Builder {
  import opened Context
  import opened Enums
  import opened FactoryMethod
  import opened Lists

  type Grid = seq<seq<Peca?>>

  ghost predicate Shaped(g: Grid, w: int, h: int)
  {
    |g| == h && forall y | 0 <= y < h :: |g[y]| == w
  }

  predicate InRange(g: Grid, x: int, y: int)
  {
    0 <= y < |g| && 0 <= x < |g[y]|
  }

  /** The occupant of column `x` in row `y`, and null off the grid. */
  function At(g: Grid, x: int, y: int): Peca?
  {
    if InRange(g, x, y) then g[y][x] else null
  }

  /** The grid with `v` written at column `x` of row `y`. */
  function Put(g: Grid, x: int, y: int, v: Peca?): (r: Grid)
    requires InRange(g, x, y)
    ensures |r| == |g| && forall j | 0 <= j < |g| :: |r[j]| == |g[j]|
    ensures forall j, i | InRange(g, i, j) :: r[j][i] == if i == x && j == y then v else g[j][i]
  {
    g[y := g[y][x := v]]
  }

  /** Two grids with the same rows, entry by entry, are equal. */
  lemma GridEq(a: Grid, b: Grid)
    requires |a| == |b| && forall y | 0 <= y < |a| :: |a[y]| == |b[y]|
    requires forall y, x | 0 <= y < |a| && 0 <= x < |a[y]| :: a[y][x] == b[y][x]
    ensures a == b
  {
    forall y | 0 <= y < |a|
      ensures a[y] == b[y]
    {
      assert a[y] == b[y];
    }
  }

  ghost predicate Occurs(g: Grid, p: Peca)
  {
    exists j, i | 0 <= j < |g| && 0 <= i < |g[j]| :: g[j][i] == p
  }

  /** No piece object stands on two cells. */
  ghost predicate Injective(g: Grid)
  {
    forall j, i, j', i' | InRange(g, i, j) && InRange(g, i', j') && g[j][i] != null && g[j][i] == g[j'][i'] :: j == j' && i == i'
  }

  // ----- movePiece -----

  /** `movePiece`'s guard: the very object `p` is at (ox, oy) and (dx, dy) is on the board. */
  predicate MoveGuard(g: Grid, p: Peca, ox: int, oy: int, dx: int, dy: int)
  {
    At(g, ox, oy) == p && InRange(g, dx, dy)
  }

  /** The grid after a successful move: the origin cleared, then `p` written at the destination. */
  function Moved(g: Grid, p: Peca, ox: int, oy: int, dx: int, dy: int): (r: Grid)
    requires MoveGuard(g, p, ox, oy, dx, dy)
    ensures |r| == |g| && forall j | 0 <= j < |g| :: |r[j]| == |g[j]|
    ensures r[dy][dx] == p
    ensures (ox != dx || oy != dy) ==> r[oy][ox] == null
    ensures forall j, i | InRange(g, i, j) && !(i == ox && j == oy) && !(i == dx && j == dy) :: r[j][i] == g[j][i]
  {
    Put(Put(g, ox, oy, null), dx, dy, p)
  }

  /**
   * A move keeps every piece on at most one cell, and the previous occupant
   * of the destination is no longer anywhere on the grid.
   */
  lemma MovePreservesInjective(g: Grid, p: Peca, ox: int, oy: int, dx: int, dy: int)
    requires Injective(g) && MoveGuard(g, p, ox, oy, dx, dy)
    ensures Injective(Moved(g, p, ox, oy, dx, dy))
    ensures At(g, dx, dy) != null && At(g, dx, dy) != p ==> !Occurs(Moved(g, p, ox, oy, dx, dy), At(g, dx, dy))
  {
    var r := Moved(g, p, ox, oy, dx, dy);
    forall j, i, j', i' | InRange(r, i, j) && InRange(r, i', j') && r[j][i] != null && r[j][i] == r[j'][i']
      ensures j == j' && i == i'
    {
      if r[j][i] != p {
        assert r[j][i] == g[j][i] && r[j'][i'] == g[j'][i'];
      }
    }
  }

  // ----- removePiece -----

  /**
   * `removePiece`'s guard reads `getPieceAt(pos.row, pos.col)`, that is
   * column `row` of row `col`.
   */
  predicate RemoveGuard(g: Grid, p: Peca, pos: Position)
  {
    At(g, pos.row, pos.col) == p
  }

  /** The cell `removePiece` clears, `pieceGrid[pos.row][pos.col]`, exists: row `row`, column `col`. */
  predicate ClearAddressable(g: Grid, pos: Position)
  {
    InRange(g, pos.col, pos.row)
  }

  function ClearedAt(g: Grid, pos: Position): Grid
    requires ClearAddressable(g, pos)
  {
    Put(g, pos.col, pos.row, null)
  }

  /**
   * Off the diagonal the cell cleared is not the cell the guard read, so on
   * a grid where no piece stands twice the removed piece is still on it.
   */
  lemma {:induction false} RemoveClearsTransposedCell(g: Grid, p: Peca, pos: Position)
    requires RemoveGuard(g, p, pos) && ClearAddressable(g, pos) && pos.row != pos.col
    ensures ClearedAt(g, pos)[pos.col][pos.row] == p
    ensures Occurs(ClearedAt(g, pos), p)
  {
    var r := ClearedAt(g, pos);
    assert r[pos.col][pos.row] == g[pos.col][pos.row];
  }

  // ----- restoreState -----

  /** The occupants of row `y`, columns 0 to w - 1, left to right. */
  function RowOccupants(g: Grid, y: int, w: nat): seq<Peca>
  {
    if w == 0 then []
    else
      var q := At(g, w - 1, y);
      RowOccupants(g, y, w - 1) + if q == null then [] else [q]
  }

  /** The occupants of rows 0 to h - 1 in row-major order. */
  function Occupants(g: Grid, w: nat, h: nat): seq<Peca>
  {
    if h == 0 then [] else Occupants(g, w, h - 1) + RowOccupants(g, h - 1, w)
  }

  lemma {:induction false} RowOccupantsMembership(g: Grid, y: int, w: nat, q: Peca)
    ensures q in RowOccupants(g, y, w) <==> exists x | 0 <= x < w :: At(g, x, y) == q
  {
    if w > 0 {
      RowOccupantsMembership(g, y, w - 1, q);
      if At(g, w - 1, y) == q {
        assert exists x | 0 <= x < w :: At(g, x, y) == q;
      }
    }
  }

  /** Exactly the pieces on the grid's first h rows and w columns are listed. */
  lemma {:induction false} OccupantsMembership(g: Grid, w: nat, h: nat, q: Peca)
    ensures q in Occupants(g, w, h) <==> exists y, x | 0 <= y < h && 0 <= x < w :: At(g, x, y) == q
  {
    if h > 0 {
      OccupantsMembership(g, w, h - 1, q);
      RowOccupantsMembership(g, h - 1, w, q);
      if q in RowOccupants(g, h - 1, w) {
        var x :| 0 <= x < w && At(g, x, h - 1) == q;
        assert exists y, x | 0 <= y < h && 0 <= x < w :: At(g, x, y) == q;
      }
      if exists y, x | 0 <= y < h && 0 <= x < w :: At(g, x, y) == q {
        var y, x :| 0 <= y < h && 0 <= x < w && At(g, x, y) == q;
        if y < h - 1 {
          assert exists y, x | 0 <= y < h - 1 && 0 <= x < w :: At(g, x, y) == q;
        } else {
          var last := h - 1;
          assert exists x | 0 <= x < w :: At(g, x, last) == q;
        }
      }
    }
  }

  // ----- the constructor -----

  /** The entry the constructor's loop leaves at `pieceGrid[row][col]`: the last listed piece at (row, col). */
  function LastPlaced(ps: seq<Peca>, row: int, col: int): (r: Peca?)
    reads ps
    ensures r != null ==> r in ps && r.position == Position(row, col)
    ensures r == null <==> forall i | 0 <= i < |ps| :: ps[i].position != Position(row, col)
  {
    if |ps| == 0 then null
    else if ps[|ps| - 1].position == Position(row, col) then ps[|ps| - 1]
    else LastPlaced(ps[..|ps| - 1], row, col)
  }

  ghost predicate DistinctPositions(ps: seq<Peca>)
    reads ps
  {
    forall i, j | 0 <= i < j < |ps| :: ps[i].position != ps[j].position
  }

  ghost predicate PlacedWithin(ps: seq<Peca>, h: int, w: int)
    reads ps
  {
    forall i | 0 <= i < |ps| :: 0 <= ps[i].position.row < h && 0 <= ps[i].position.col < w
  }

  /** With distinct positions, each piece ends up at row `position.row`, column `position.col`. */
  lemma {:induction false} LastPlacedIsOwn(ps: seq<Peca>, k: nat)
    requires k < |ps| && DistinctPositions(ps)
    ensures LastPlaced(ps, ps[k].position.row, ps[k].position.col) == ps[k]
  {
    if k < |ps| - 1 {
      assert ps[k].position != ps[|ps| - 1].position;
      assert ps[..|ps| - 1][k] == ps[k];
      LastPlacedIsOwn(ps[..|ps| - 1], k);
    }
  }

  /**
   * Two pieces listed at the same position share one cell, and the one
   * listed later is what the constructor leaves there: the builder's two
   * start-up pieces, both made at (0, 0), stack on cell [0][0] with the
   * second one on top, and every other cell stays empty.
   */
  lemma SamePositionLastWins(first: Peca, second: Peca, row: int, col: int)
    requires first.position == second.position
    ensures LastPlaced([first, second], first.position.row, first.position.col) == second
    ensures Position(row, col) != first.position ==> LastPlaced([first, second], row, col) == null
  {
    assert [first, second][..1] == [first];
  }

  /**
   * On a grid the constructor built from pieces with distinct positions,
   * `removePiece` fails for every piece off the diagonal: its guard reads
   * the transposed cell.
   */
  lemma RemoveMissesConstructedPiece(g: Grid, ps: seq<Peca>, k: nat)
    requires k < |ps| && DistinctPositions(ps)
    requires forall y, x | InRange(g, x, y) :: g[y][x] == LastPlaced(ps, y, x)
    requires ps[k].position.row != ps[k].position.col
    ensures !RemoveGuard(g, ps[k], ps[k].position)
  {
    var pos := ps[k].position;
    if InRange(g, pos.row, pos.col) {
      var q := LastPlaced(ps, pos.col, pos.row);
      assert g[pos.col][pos.row] == q;
      assert q != null ==> q.position == Position(pos.col, pos.row);
    }
  }

  /**
   * `movePiece` leaves a piece whose position becomes (dx, dy) at row dy,
   * column dx; the constructor, and so `deepClone`, puts a piece with that
   * position at row dx, column dy. Off the diagonal the two disagree.
   */
  lemma TransposedIndex(g: Grid, p: Peca, ox: int, oy: int, dx: int, dy: int, ps: seq<Peca>, k: nat)
    requires MoveGuard(g, p, ox, oy, dx, dy)
    requires k < |ps| && DistinctPositions(ps) && ps[k].position == Position(dx, dy)
    requires dx != dy
    ensures Moved(g, p, ox, oy, dx, dy)[dy][dx] == p
    ensures LastPlaced(ps, dx, dy) == ps[k]
    ensures LastPlaced(ps, dy, dx) != ps[k]
  {
    LastPlacedIsOwn(ps, k);
  }

  // ----- a capture: movePiece(p, ...) then removePiece(target) -----

  function AfterMove(g: Grid, p: Peca, ox: int, oy: int, dx: int, dy: int): Grid
  {
    if MoveGuard(g, p, ox, oy, dx, dy) then Moved(g, p, ox, oy, dx, dy) else g
  }

  /** The position `removePiece(q)` reads after the move: only the mover's position changes. */
  function PosAfterMove(g: Grid, p: Peca, ox: int, oy: int, dx: int, dy: int, q: Peca, qPos: Position): Position
  {
    if q == p && MoveGuard(g, p, ox, oy, dx, dy) then Position(dx, dy) else qPos
  }

  /** The target `q` taken from (dx, dy) before the move is removed after it. */
  predicate CaptureRemoves(g: Grid, p: Peca, ox: int, oy: int, dx: int, dy: int, qPos: Position)
  {
    var q := At(g, dx, dy);
    q != null && RemoveGuard(AfterMove(g, p, ox, oy, dx, dy), q, PosAfterMove(g, p, ox, oy, dx, dy, q, qPos))
  }

  /** The capture reaches no cell outside the array when it clears. */
  predicate CaptureSafe(g: Grid, p: Peca, ox: int, oy: int, dx: int, dy: int, qPos: Position)
  {
    var q := At(g, dx, dy);
    CaptureRemoves(g, p, ox, oy, dx, dy, qPos) ==>
      ClearAddressable(AfterMove(g, p, ox, oy, dx, dy), PosAfterMove(g, p, ox, oy, dx, dy, q, qPos))
  }

  function CaptureGrid(g: Grid, p: Peca, ox: int, oy: int, dx: int, dy: int, qPos: Position): Grid
    requires CaptureSafe(g, p, ox, oy, dx, dy, qPos)
  {
    var q := At(g, dx, dy);
    var mid := AfterMove(g, p, ox, oy, dx, dy);
    if CaptureRemoves(g, p, ox, oy, dx, dy, qPos) then ClearedAt(mid, PosAfterMove(g, p, ox, oy, dx, dy, q, qPos)) else mid
  }

  function CapturePieces(g: Grid, ps: seq<Peca>, p: Peca, ox: int, oy: int, dx: int, dy: int, qPos: Position): seq<Peca>
  {
    if CaptureRemoves(g, p, ox, oy, dx, dy, qPos) then RemoveFirst(ps, At(g, dx, dy)) else ps
  }

  /**
   * When the move succeeds onto an occupant of a grid where no piece stands
   * twice, the occupant is no longer on the grid, so `removePiece` fails and
   * the captured piece stays in the list.
   */
  lemma CapturedStaysListed(g: Grid, ps: seq<Peca>, p: Peca, ox: int, oy: int, dx: int, dy: int, qPos: Position)
    requires Injective(g) && MoveGuard(g, p, ox, oy, dx, dy)
    requires At(g, dx, dy) != null && At(g, dx, dy) != p
    ensures !CaptureRemoves(g, p, ox, oy, dx, dy, qPos)
    ensures CapturePieces(g, ps, p, ox, oy, dx, dy, qPos) == ps
    ensures CaptureGrid(g, p, ox, oy, dx, dy, qPos) == Moved(g, p, ox, oy, dx, dy)
  {
    var q := At(g, dx, dy);
    var r := Moved(g, p, ox, oy, dx, dy);
    MovePreservesInjective(g, p, ox, oy, dx, dy);
  }

  // ----- the board -----

  /** The board. `cells` and the grid reference never change; the grid's entries and the list do. */
  class TabletopProduct {
    const width: nat
    const height: nat
    const cells: seq<seq<Cell>>
    var pieces: seq<Peca>
    const pieceGrid: array2<Peca?>

    ghost predicate Valid()
    {
      pieceGrid.Length0 == height && pieceGrid.Length1 == width
    }

    /** The grid's entries, row by row. */
    ghost function Rows(): (g: Grid)
      requires Valid()
      reads pieceGrid
      ensures Shaped(g, width, height)
      ensures forall y, x | 0 <= y < height && 0 <= x < width :: g[y][x] == pieceGrid[y, x]
    {
      seq(height, y requires 0 <= y < height reads pieceGrid =>
        seq(width, x requires 0 <= x < width reads pieceGrid => pieceGrid[y, x]))
    }

    /**
     * Builds the grid and writes each listed piece at `pieceGrid[pos.row][pos.col]`;
     * a position outside the grid would throw, so every position must be inside.
     */
    constructor (width: nat, height: nat, cells: seq<seq<Cell>>, pieces: seq<Peca>)
      requires PlacedWithin(pieces, height, width)
      ensures Valid() && fresh(pieceGrid)
      ensures this.width == width && this.height == height && this.cells == cells && this.pieces == pieces
      ensures forall y, x | 0 <= y < height && 0 <= x < width :: pieceGrid[y, x] == LastPlaced(pieces, y, x)
    {
      this.width := width;
      this.height := height;
      this.cells := cells;
      this.pieces := pieces;
      this.pieceGrid := new Peca?[height, width]((y, x) => null);
      new;
      var i := 0;
      while i < |pieces|
        invariant 0 <= i <= |pieces| && this.pieces == pieces
        invariant forall y, x | 0 <= y < height && 0 <= x < width :: pieceGrid[y, x] == LastPlaced(pieces[..i], y, x)
      {
        var pos := pieces[i].position;
        pieceGrid[pos.row, pos.col] := pieces[i];
        assert pieces[..i + 1][..i] == pieces[..i];
        i := i + 1;
      }
      assert pieces[..|pieces|] == pieces;
    }

    /** `isWithinBounds`: exactly the indices the grid has. */
    function IsWithinBounds(x: int, y: int): (r: bool)
      ensures Valid() ==> (r <==> 0 <= y < pieceGrid.Length0 && 0 <= x < pieceGrid.Length1)
    {
      x >= 0 && x < width && y >= 0 && y < height
    }

    /** `cells[y][x]` exists, so `getCellType` and `getCellAt` do not throw. */
    predicate HasCell(x: int, y: int)
    {
      0 <= y < |cells| && 0 <= x < |cells[y]|
    }

    /** `getCellType`: on a board laid out as the Selva builder does, the classifier's type for `Position(x, y)`. */
    function GetCellType(x: int, y: int): (t: CellType)
      requires HasCell(x, y)
      ensures t == cells[y][x].kind
      ensures cells == SelvaCells(width, height) ==> t == DetermineCellType(Position(x, y))
    {
      cells[y][x].kind
    }

    /** `getCellAt`: on a board laid out as the Selva builder does, the cell the factory method made for `Position(x, y)`. */
    function GetCellAt(x: int, y: int): (c: Cell)
      requires HasCell(x, y)
      ensures c == cells[y][x]
      ensures cells == SelvaCells(width, height) ==> c == FactoryMethod.FactoryMethod(Position(x, y)) && c.pos == Position(x, y)
    {
      cells[y][x]
    }

    /** `getPieceAt` never throws: null off the board, else `pieceGrid[y][x]`. */
    function GetPieceAt(x: int, y: int): (p: Peca?)
      requires Valid()
      reads pieceGrid
      ensures p == At(Rows(), x, y)
      ensures !IsWithinBounds(x, y) ==> p == null
    {
      if !IsWithinBounds(x, y) then null else pieceGrid[y, x]
    }

    /**
     * `movePiece`: fails and changes nothing unless `peca` itself is at
     * (ox, oy) and (dx, dy) is on the board; otherwise clears the origin,
     * overwrites the destination and sets the position to (dx, dy). The list
     * is never touched, so an overwritten occupant stays in it.
     */
    method MovePiece(peca: Peca, ox: int, oy: int, dx: int, dy: int) returns (ok: bool)
      requires Valid()
      modifies pieceGrid, peca`position
      ensures ok == old(MoveGuard(Rows(), peca, ox, oy, dx, dy))
      ensures ok ==> Rows() == Moved(old(Rows()), peca, ox, oy, dx, dy) && peca.position == Position(dx, dy)
      ensures !ok ==> Rows() == old(Rows()) && peca.position == old(peca.position)
    {
      ghost var g := Rows();
      if GetPieceAt(ox, oy) != peca || !IsWithinBounds(dx, dy) {
        return false;
      }
      pieceGrid[oy, ox] := null;
      pieceGrid[dy, dx] := peca;
      peca.SetPosition(Position(dx, dy));
      GridEq(Rows(), Moved(g, peca, ox, oy, dx, dy));
      ok := true;
    }

    /**
     * `removePiece`: fails and changes nothing unless `getPieceAt(pos.row, pos.col)`
     * is `peca`; otherwise clears `pieceGrid[pos.row][pos.col]` and removes the
     * first occurrence from the list, answering whether there was one. That
     * write must stay inside the array, or it would throw.
     */
    method RemovePiece(peca: Peca) returns (ok: bool)
      requires Valid()
      requires RemoveGuard(Rows(), peca, peca.position) ==> ClearAddressable(Rows(), peca.position)
      modifies this`pieces, pieceGrid
      ensures RemoveGuard(old(Rows()), peca, peca.position) ==>
        Rows() == ClearedAt(old(Rows()), peca.position) && pieces == RemoveFirst(old(pieces), peca) && ok == (peca in old(pieces))
      ensures !RemoveGuard(old(Rows()), peca, peca.position) ==> Rows() == old(Rows()) && pieces == old(pieces) && !ok
    {
      ghost var g := Rows();
      var pos := peca.position;
      if GetPieceAt(pos.row, pos.col) != peca {
        return false;
      }
      pieceGrid[pos.row, pos.col] := null;
      GridEq(Rows(), ClearedAt(g, pos));
      ok := peca in pieces;
      pieces := RemoveFirst(pieces, peca);
    }

    /**
     * `restoreState`: every cell of this board takes the object `state` has
     * there (null where `state` is smaller), then the list becomes `state`'s
     * occupants over this board's rows and columns in row-major order.
     */
    method RestoreState(state: TabletopProduct)
      requires Valid() && state.Valid()
      modifies pieceGrid, this`pieces
      ensures forall y, x | 0 <= y < height && 0 <= x < width :: pieceGrid[y, x] == At(old(state.Rows()), x, y)
      ensures pieces == Occupants(old(state.Rows()), width, height)
      ensures state.Rows() == old(state.Rows())
    {
      CopyGridFrom(state);
      CollectFrom(state);
    }

    /** The first loop of `restoreState`; `state` may be this very board, whose grid it then rewrites unchanged. */
    method CopyGridFrom(state: TabletopProduct)
      requires Valid() && state.Valid()
      modifies pieceGrid
      ensures forall y, x | 0 <= y < height && 0 <= x < width :: pieceGrid[y, x] == At(old(state.Rows()), x, y)
      ensures state.Rows() == old(state.Rows())
    {
      ghost var src := state.Rows();
      var y := 0;
      while y < height
        invariant 0 <= y <= height
        invariant forall j, i | 0 <= j < y && 0 <= i < width :: pieceGrid[j, i] == At(src, i, j)
        invariant forall j, i | 0 <= j < state.height && 0 <= i < state.width :: state.pieceGrid[j, i] == src[j][i]
      {
        var x := 0;
        while x < width
          invariant 0 <= x <= width
          invariant forall j, i | 0 <= j < y && 0 <= i < width :: pieceGrid[j, i] == At(src, i, j)
          invariant forall i | 0 <= i < x :: pieceGrid[y, i] == At(src, i, y)
          invariant forall j, i | 0 <= j < state.height && 0 <= i < state.width :: state.pieceGrid[j, i] == src[j][i]
        {
          pieceGrid[y, x] := state.GetPieceAt(x, y);
          x := x + 1;
        }
        y := y + 1;
      }
      GridEq(state.Rows(), src);
    }

    /** The second loop of `restoreState`: the list is rebuilt from `state`'s grid in row-major order. */
    method CollectFrom(state: TabletopProduct)
      requires state.Valid()
      modifies this`pieces
      ensures pieces == Occupants(state.Rows(), width, height)
    {
      pieces := [];
      var y := 0;
      while y < height
        invariant 0 <= y <= height
        invariant pieces == Occupants(state.Rows(), width, y)
      {
        CollectRow(state, y);
        y := y + 1;
      }
    }

    /** One pass of that loop's inner loop: row `y`'s occupants are appended, left to right. */
    method CollectRow(state: TabletopProduct, y: int)
      requires state.Valid()
      modifies this`pieces
      ensures pieces == old(pieces) + RowOccupants(state.Rows(), y, width)
    {
      var x := 0;
      while x < width
        invariant 0 <= x <= width
        invariant pieces == old(pieces) + RowOccupants(state.Rows(), y, x)
      {
        var p := state.GetPieceAt(x, y);
        if p != null {
          pieces := pieces + [p];
        }
        x := x + 1;
      }
    }

    /**
     * `deepClone`: a fresh board of the same size whose cells are copies and
     * whose list holds a fresh clone of each piece in order; the new board's
     * constructor places each clone at `[pos.row][pos.col]`, so every position
     * must lie inside that grid and every row of cells must be wide enough.
     */
    method DeepClone() returns (c: TabletopProduct)
      requires Valid()
      requires |cells| >= height && forall y | 0 <= y < height :: |cells[y]| >= width
      requires PlacedWithin(pieces, height, width)
      ensures fresh(c) && fresh(c.pieceGrid) && c.Valid()
      ensures c.width == width && c.height == height
      ensures |c.cells| == height && forall y | 0 <= y < height :: c.cells[y] == cells[y][..width]
      ensures |c.pieces| == |pieces|
      ensures forall i | 0 <= i < |pieces| :: fresh(c.pieces[i]) && IsClone(c.pieces[i], pieces[i])
      ensures forall i, j | 0 <= i < j < |pieces| :: c.pieces[i] != c.pieces[j]
      ensures forall y, x | 0 <= y < height && 0 <= x < width :: c.pieceGrid[y, x] == LastPlaced(c.pieces, y, x)
    {
      var clonedCells: seq<seq<Cell>> := [];
      var y := 0;
      while y < height
        invariant 0 <= y <= height && |clonedCells| == y
        invariant forall j | 0 <= j < y :: clonedCells[j] == cells[j][..width]
      {
        var row: seq<Cell> := [];
        var x := 0;
        while x < width
          invariant 0 <= x <= width && row == cells[y][..x]
        {
          row := row + [cells[y][x]];
          x := x + 1;
        }
        clonedCells := clonedCells + [row];
        y := y + 1;
      }

      var cloned: seq<Peca> := [];
      var i := 0;
      while i < |pieces|
        invariant 0 <= i <= |pieces| && |cloned| == i
        invariant forall k | 0 <= k < i :: fresh(cloned[k]) && IsClone(cloned[k], pieces[k])
        invariant forall k, l | 0 <= k < l < i :: cloned[k] != cloned[l]
      {
        var q := pieces[i].DeepClone();
        cloned := cloned + [q];
        i := i + 1;
      }
      c := new TabletopProduct(width, height, clonedCells, cloned);
    }
  }

  /** `c` is what `Peca.deepClone` makes of `p`. */
  ghost predicate IsClone(c: Peca, p: Peca)
    reads c, p
  {
    c.nome == p.nome && c.side == p.side && c.movimentoStrategy == p.movimentoStrategy
    && c.position == p.position && c.state == NormalState
  }
}
