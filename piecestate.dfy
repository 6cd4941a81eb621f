/**
 * The `state` package's piece states and `Peca.mover`. A piece in
 * NormalState hands the move to its strategy; a piece in BloqueadaState
 * refuses every move. No state ever changes a piece's state: none of these
 * methods may modify `state`.
 */
module PieceState {
  import opened Wrappers
  import opened Context
  import opened Builder
  import opened Observer
  import opened Strategy

  /** The cells a strategy's guards read must exist when it reads them. */
  predicate CellsNeeded(s: MovimentoStrategy, board: TabletopProduct, ox: int, oy: int, dx: int, dy: int)
  {
    match s
    case MovimentoBasico => DestCell(board, ox, oy, dx, dy)
    case ElefanteMovimento => DestCell(board, ox, oy, dx, dy)
    case RatoMovimento => BothCells(board, ox, oy, dx, dy)
    case LeaoMovimento => LeaoCells(board, ox, oy, dx, dy)
    case TigreMovimento => true
    case NullPieceMovimento => true
  }

  /** The strategies that call `movePiece`; Tigre's and NullPiece's never touch the board. */
  predicate MovesOnBoard(s: MovimentoStrategy)
  {
    !s.TigreMovimento? && !s.NullPieceMovimento?
  }

  /** The answer of each strategy's `mover`, from the state before the call. NullPiece's answers false. */
  predicate StrategyAccepts(s: MovimentoStrategy, board: TabletopProduct, side: PlayerSide, ox: int, oy: int, dx: int, dy: int)
    requires board.Valid() && CellsNeeded(s, board, ox, oy, dx, dy)
    reads board.pieceGrid
  {
    match s
    case MovimentoBasico => BasicoAccepts(board, side, ox, oy, dx, dy)
    case ElefanteMovimento => ElefanteAccepts(board, side, ox, oy, dx, dy)
    case RatoMovimento => RatoAccepts(board, side, ox, oy, dx, dy)
    case LeaoMovimento => LeaoAccepts(board, side, ox, oy, dx, dy)
    case TigreMovimento => TigreAccepts(ox, oy, dx, dy)
    case NullPieceMovimento => false
  }

  /** The capture an accepted board move makes stays inside the array. */
  ghost predicate MoveSafe(s: MovimentoStrategy, board: TabletopProduct, peca: Peca, ox: int, oy: int, dx: int, dy: int)
    requires board.Valid() && CellsNeeded(s, board, ox, oy, dx, dy)
    reads board.pieceGrid, board.GetPieceAt(dx, dy)
  {
    StrategyAccepts(s, board, peca.side, ox, oy, dx, dy) && MovesOnBoard(s) ==>
      CaptureSafe(board.Rows(), peca, ox, oy, dx, dy, PosOf(board.GetPieceAt(dx, dy)))
  }

  /** Dispatch on the strategy object, as the virtual call `getMovimentoStrategy().mover(...)` does. */
  method StrategyMover(s: MovimentoStrategy, peca: Peca, board: TabletopProduct, ox: int, oy: int, dx: int, dy: int, subject: TabletopSubject)
    returns (r: bool)
    requires board.Valid() && CellsNeeded(s, board, ox, oy, dx, dy) && MoveSafe(s, board, peca, ox, oy, dx, dy)
    modifies board.pieceGrid, board`pieces, peca`position, subject`delivered
    ensures r == old(StrategyAccepts(s, board, peca.side, ox, oy, dx, dy))
    ensures r && MovesOnBoard(s) ==>
      Captured(board, old(board.Rows()), old(board.pieces), peca, old(peca.position), ox, oy, dx, dy, old(PosOf(board.GetPieceAt(dx, dy))))
    ensures !(r && MovesOnBoard(s)) ==> Unmoved(board, old(board.Rows()), old(board.pieces), peca, old(peca.position))
    ensures subject.delivered == old(subject.delivered) + if r && s.TigreMovimento? then Broadcast(subject.observers, TigreMessage(dx, dy)) else []
  {
    match s
    case MovimentoBasico => r := MoverBasico(peca, board, ox, oy, dx, dy);
    case ElefanteMovimento => r := MoverElefante(peca, board, ox, oy, dx, dy);
    case RatoMovimento => r := MoverRato(peca, board, ox, oy, dx, dy);
    case LeaoMovimento => r := MoverLeao(peca, board, ox, oy, dx, dy);
    case TigreMovimento => r := MoverTigre(ox, oy, dx, dy, subject);
    case NullPieceMovimento => r := false;
  }

  /** `NormalState.mover`: false without a strategy, otherwise the strategy's answer. */
  method NormalStateMover(peca: Peca, board: TabletopProduct, ox: int, oy: int, dx: int, dy: int, subject: TabletopSubject)
    returns (r: bool)
    requires board.Valid()
    requires peca.movimentoStrategy.Some? ==>
      CellsNeeded(peca.movimentoStrategy.value, board, ox, oy, dx, dy) && MoveSafe(peca.movimentoStrategy.value, board, peca, ox, oy, dx, dy)
    modifies board.pieceGrid, board`pieces, peca`position, subject`delivered
    ensures peca.movimentoStrategy.None? ==> !r && Unmoved(board, old(board.Rows()), old(board.pieces), peca, old(peca.position))
    ensures peca.movimentoStrategy.None? ==> subject.delivered == old(subject.delivered)
    ensures peca.movimentoStrategy.Some? ==> var s := peca.movimentoStrategy.value;
      && r == old(StrategyAccepts(s, board, peca.side, ox, oy, dx, dy))
      && (r && MovesOnBoard(s) ==>
          Captured(board, old(board.Rows()), old(board.pieces), peca, old(peca.position), ox, oy, dx, dy, old(PosOf(board.GetPieceAt(dx, dy)))))
      && (!(r && MovesOnBoard(s)) ==> Unmoved(board, old(board.Rows()), old(board.pieces), peca, old(peca.position)))
      && subject.delivered == old(subject.delivered) + if r && s.TigreMovimento? then Broadcast(subject.observers, TigreMessage(dx, dy)) else []
  {
    if peca.movimentoStrategy.None? {
      return false;
    }
    r := StrategyMover(peca.movimentoStrategy.value, peca, board, ox, oy, dx, dy, subject);
  }

  /** `BloqueadaState.mover`: always false, and nothing is read or changed. */
  method BloqueadaStateMover(peca: Peca, board: TabletopProduct, ox: int, oy: int, dx: int, dy: int, subject: TabletopSubject)
    returns (r: bool)
    ensures !r
  {
    r := false;
  }

  /** Whether `peca.mover(board, …)` answers true, from the state before the call. */
  predicate PecaAccepts(peca: Peca, board: TabletopProduct, ox: int, oy: int, dx: int, dy: int)
    requires board.Valid() && PecaCells(peca, board, ox, oy, dx, dy)
    reads peca, board.pieceGrid
  {
    peca.state == NormalState && peca.movimentoStrategy.Some?
    && StrategyAccepts(peca.movimentoStrategy.value, board, peca.side, ox, oy, dx, dy)
  }

  /** The cells the piece's strategy reads exist, when its state lets the strategy run. */
  predicate PecaCells(peca: Peca, board: TabletopProduct, ox: int, oy: int, dx: int, dy: int)
    reads peca
  {
    peca.state == NormalState && peca.movimentoStrategy.Some? ==> CellsNeeded(peca.movimentoStrategy.value, board, ox, oy, dx, dy)
  }

  /** Whether an accepted move of the piece keeps its capture inside the array. */
  ghost predicate PecaSafe(peca: Peca, board: TabletopProduct, ox: int, oy: int, dx: int, dy: int)
    requires board.Valid() && PecaCells(peca, board, ox, oy, dx, dy)
    reads peca, board.pieceGrid, board.GetPieceAt(dx, dy)
  {
    peca.state == NormalState && peca.movimentoStrategy.Some? ==> MoveSafe(peca.movimentoStrategy.value, board, peca, ox, oy, dx, dy)
  }

  /** The piece moves on the board if it is accepted by a strategy that calls `movePiece`. */
  predicate PecaMovesOnBoard(peca: Peca)
    reads peca
  {
    peca.state == NormalState && peca.movimentoStrategy.Some? && MovesOnBoard(peca.movimentoStrategy.value)
  }

  /** The piece accepted a move under the tiger's rule, which notifies. */
  predicate PecaNotifies(peca: Peca)
    reads peca
  {
    peca.state == NormalState && peca.movimentoStrategy == Some(TigreMovimento)
  }

  /** `Peca.mover`: exactly what the piece's state does with the same arguments. */
  method PecaMover(peca: Peca, board: TabletopProduct, ox: int, oy: int, dx: int, dy: int, subject: TabletopSubject)
    returns (r: bool)
    requires board.Valid() && PecaCells(peca, board, ox, oy, dx, dy) && PecaSafe(peca, board, ox, oy, dx, dy)
    modifies board.pieceGrid, board`pieces, peca`position, subject`delivered
    ensures r == old(PecaAccepts(peca, board, ox, oy, dx, dy))
    ensures r && PecaMovesOnBoard(peca) ==>
      Captured(board, old(board.Rows()), old(board.pieces), peca, old(peca.position), ox, oy, dx, dy, old(PosOf(board.GetPieceAt(dx, dy))))
    ensures !(r && PecaMovesOnBoard(peca)) ==> Unmoved(board, old(board.Rows()), old(board.pieces), peca, old(peca.position))
    ensures subject.delivered == old(subject.delivered) + if r && PecaNotifies(peca) then Broadcast(subject.observers, TigreMessage(dx, dy)) else []
  {
    match peca.state
    case NormalState => r := NormalStateMover(peca, board, ox, oy, dx, dy, subject);
    case BloqueadaState => r := BloqueadaStateMover(peca, board, ox, oy, dx, dy, subject);
  }

  /** A blocked piece, or one without a strategy, never moves, wherever it is asked to go. */
  lemma BlockedNeverMoves(peca: Peca, board: TabletopProduct, ox: int, oy: int, dx: int, dy: int)
    requires board.Valid() && PecaCells(peca, board, ox, oy, dx, dy)
    requires peca.state == BloqueadaState || peca.movimentoStrategy.None?
    ensures !PecaAccepts(peca, board, ox, oy, dx, dy)
  {
  }

  /** A NullPiece-style strategy never moves either. */
  lemma NullStrategyNeverMoves(board: TabletopProduct, side: PlayerSide, ox: int, oy: int, dx: int, dy: int)
    requires board.Valid()
    ensures !StrategyAccepts(NullPieceMovimento, board, side, ox, oy, dx, dy)
  {
  }
}
