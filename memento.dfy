/**
 * The `memento` package: a `BoardMemento` holds a deep copy of the board
 * taken when it is made, so later moves on the board do not reach it.
 */
module Memento {
  import opened Context
  import opened Builder
  import opened Strategy

  /** What `deepClone` needs of the board: every row of cells covers the grid and every piece lies inside it. */
  ghost predicate Cloneable(board: TabletopProduct)
    reads board, board.pieces
  {
    board.Valid()
    && |board.cells| >= board.height && (forall y | 0 <= y < board.height :: |board.cells[y]| >= board.width)
    && PlacedWithin(board.pieces, board.height, board.width)
  }

  /** The snapshot `s` copies `board`: same size, a fresh clone of each listed piece in order, each placed by its position. */
  ghost predicate SnapshotOf(s: TabletopProduct, board: TabletopProduct)
    reads s, s.pieces, board, board.pieces
  {
    s.Valid() && s.width == board.width && s.height == board.height
    && |s.pieces| == |board.pieces|
    && (forall i | 0 <= i < |board.pieces| :: IsClone(s.pieces[i], board.pieces[i]))
    && (forall i, j | 0 <= i < j < |s.pieces| :: s.pieces[i] != s.pieces[j])
  }

  class BoardMemento {
    const state: TabletopProduct

    /** `new BoardMemento(board)`: the snapshot is `board.deepClone()`. */
    constructor (board: TabletopProduct)
      requires Cloneable(board)
      ensures fresh(state) && fresh(state.pieceGrid) && SnapshotOf(state, board)
      ensures forall i | 0 <= i < |state.pieces| :: fresh(state.pieces[i])
      ensures forall y, x | 0 <= y < state.height && 0 <= x < state.width :: state.pieceGrid[y, x] == LastPlaced(state.pieces, y, x)
    {
      var snapshot := board.DeepClone();
      state := snapshot;
    }

    function GetState(): (s: TabletopProduct)
      ensures s == state
    {
      state
    }
  }

  /** The snapshot shares neither the board object, its grid, nor the piece `peca` with the live board. */
  ghost predicate Apart(m: BoardMemento, board: TabletopProduct, peca: Peca)
    reads m.state
  {
    m.state != board && m.state.pieceGrid != board.pieceGrid && peca !in m.state.pieces
  }

  /**
   * A move and a removal on the live board after the snapshot was taken
   * leave the snapshot's grid, list and pieces' positions as they were.
   */
  method MoveAfterSnapshot(m: BoardMemento, board: TabletopProduct, peca: Peca, alvo: Peca?, ox: int, oy: int, dx: int, dy: int)
    requires board.Valid() && m.state.Valid() && Apart(m, board, peca)
    requires alvo == board.GetPieceAt(dx, dy) && alvo != peca && CaptureSafe(board.Rows(), peca, ox, oy, dx, dy, PosOf(alvo))
    modifies board.pieceGrid, board`pieces, peca`position
    ensures m.state.Rows() == old(m.state.Rows()) && m.state.pieces == old(m.state.pieces)
    ensures forall i | 0 <= i < |m.state.pieces| :: m.state.pieces[i].position == old(m.state.pieces[i].position)
  {
    MoveAndCapture(board, peca, alvo, ox, oy, dx, dy);
  }
}
