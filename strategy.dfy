/**
 * The `strategy` package: one movement rule per species. Each rule is a
 * sequence of guards over the board, written here as a predicate on the
 * state before the call, followed by `movePiece` and, when the destination
 * was occupied, `removePiece` of that occupant. The methods return what the
 * guards decided. The board calls' own results are ignored, as the Java
 * strategies ignore them.
 */
module Strategy {
  import opened Context
  import opened Enums
  import opened Builder
  import opened JavaText
  import opened Observer

  /** `Math.abs` on unbounded integers. */
  function Abs(n: int): nat
  {
    if n < 0 then -n else n
  }

  /** A step of Manhattan length one. */
  predicate UnitStep(ox: int, oy: int, dx: int, dy: int)
  {
    Abs(ox - dx) + Abs(oy - dy) == 1
  }

  /** The position `removePiece` would read from a possible target. */
  function PosOf(q: Peca?): Position
    reads q
  {
    if q == null then Position(0, 0) else q.position
  }

  /** `getCellType(dx, dy)` is only asked after the bounds and step guards pass, and must then not throw. */
  predicate DestCell(board: TabletopProduct, ox: int, oy: int, dx: int, dy: int)
  {
    board.IsWithinBounds(dx, dy) && UnitStep(ox, oy, dx, dy) ==> board.HasCell(dx, dy)
  }

  /** The rat's rule also reads the origin's cell, with no bounds check of its own. */
  predicate BothCells(board: TabletopProduct, ox: int, oy: int, dx: int, dy: int)
  {
    board.IsWithinBounds(dx, dy) && UnitStep(ox, oy, dx, dy) ==> board.HasCell(ox, oy) && board.HasCell(dx, dy)
  }

  /** The target, if any, belongs to the other side. */
  predicate EnemyOrEmpty(board: TabletopProduct, side: PlayerSide, dx: int, dy: int)
    requires board.Valid()
    reads board.pieceGrid
  {
    var alvo := board.GetPieceAt(dx, dy);
    alvo == null || alvo.side != side
  }

  /** The target, if any, is named `nome`. */
  predicate TargetNamed(board: TabletopProduct, dx: int, dy: int, nome: string)
    requires board.Valid()
    reads board.pieceGrid
  {
    var alvo := board.GetPieceAt(dx, dy);
    alvo != null && alvo.nome == nome
  }

  // ----- the guards, as predicates on the board before the move -----

  /** `MovimentoBasicoStrategy`: on the board, one step, not into water, not onto an own piece. */
  predicate BasicoAccepts(board: TabletopProduct, side: PlayerSide, ox: int, oy: int, dx: int, dy: int)
    requires board.Valid() && DestCell(board, ox, oy, dx, dy)
    reads board.pieceGrid
  {
    board.IsWithinBounds(dx, dy) && UnitStep(ox, oy, dx, dy)
    && board.GetCellType(dx, dy) != Water
    && EnemyOrEmpty(board, side, dx, dy)
  }

  /** `ElefanteMovimentoStrategy`: the basic guards and no target named "Rato". */
  predicate ElefanteAccepts(board: TabletopProduct, side: PlayerSide, ox: int, oy: int, dx: int, dy: int)
    requires board.Valid() && DestCell(board, ox, oy, dx, dy)
    reads board.pieceGrid
  {
    board.IsWithinBounds(dx, dy) && UnitStep(ox, oy, dx, dy)
    && board.GetCellType(dx, dy) != Water
    && EnemyOrEmpty(board, side, dx, dy)
    && !TargetNamed(board, dx, dy, "Rato")
  }

  /**
   * `RatoMovimentoStrategy`: on the board, one step, not onto an own piece,
   * and not from water onto land occupied by a piece named "Elefante".
   */
  predicate RatoAccepts(board: TabletopProduct, side: PlayerSide, ox: int, oy: int, dx: int, dy: int)
    requires board.Valid() && BothCells(board, ox, oy, dx, dy)
    reads board.pieceGrid
  {
    board.IsWithinBounds(dx, dy) && UnitStep(ox, oy, dx, dy)
    && EnemyOrEmpty(board, side, dx, dy)
    && !(board.GetCellType(ox, oy) == Water && board.GetCellType(dx, dy) == Land && TargetNamed(board, dx, dy, "Elefante"))
  }

  /** `LeaoMovimentoStrategy.isRiverJump`: the absolute value of the summed differences exceeds one. */
  predicate IsRiverJump(ox: int, oy: int, dx: int, dy: int)
  {
    Abs(ox - dx + oy - dy) > 1
  }

  /** The lion takes the jump branch: a shared row or column and a river jump. */
  predicate LeaoJumps(ox: int, oy: int, dx: int, dy: int)
  {
    (ox == dx && IsRiverJump(ox, oy, dx, dy)) || (oy == dy && IsRiverJump(ox, oy, dx, dy))
  }

  /** `LeaoMovimentoStrategy.jump`: only an own piece on the destination stops it. */
  predicate JumpAccepts(board: TabletopProduct, side: PlayerSide, dx: int, dy: int)
    requires board.Valid()
    reads board.pieceGrid
  {
    EnemyOrEmpty(board, side, dx, dy)
  }

  /** The lion's non-jump moves need what the elephant's rule reads. */
  predicate LeaoCells(board: TabletopProduct, ox: int, oy: int, dx: int, dy: int)
  {
    !LeaoJumps(ox, oy, dx, dy) ==> DestCell(board, ox, oy, dx, dy)
  }

  predicate LeaoAccepts(board: TabletopProduct, side: PlayerSide, ox: int, oy: int, dx: int, dy: int)
    requires board.Valid() && LeaoCells(board, ox, oy, dx, dy)
    reads board.pieceGrid
  {
    if LeaoJumps(ox, oy, dx, dy) then JumpAccepts(board, side, dx, dy)
    else ElefanteAccepts(board, side, ox, oy, dx, dy)
  }

  /** `TigreMovimentoStrategy.verificaMovimentoBasico`. */
  predicate TigreStep(ox: int, oy: int, dx: int, dy: int)
  {
    var difX := Abs(dx - ox);
    var difY := Abs(dy - oy);
    (difX == 1 && difY == 0) || (difX == 0 && difY == 1)
  }

  /** `TigreMovimentoStrategy.estaSaltandoSobreAgua`. */
  predicate TigreLeap(ox: int, oy: int, dx: int, dy: int)
  {
    Abs(dx - ox) > 1 || Abs(dy - oy) > 1
  }

  /** The tiger's decision; its path check `verificaSeHaRatoNoCaminho` always answers false, so a leap is never blocked. */
  predicate TigreAccepts(ox: int, oy: int, dx: int, dy: int)
  {
    TigreStep(ox, oy, dx, dy) || TigreLeap(ox, oy, dx, dy)
  }

  /** The message the tiger's rule sends on success. */
  function TigreMessage(dx: int, dy: int): string
  {
    "Tigre moveu-se para (" + IntToString(dx) + "," + IntToString(dy) + ")"
  }

  // ----- what the rules do to the board -----

  /**
   * The state `movePiece(peca, ox, oy, dx, dy)` followed, when the destination
   * held a piece at position `qPos`, by `removePiece` of that piece, leaves
   * behind, from grid `g`, list `ps` and mover position `pos`.
   */
  ghost predicate Captured(board: TabletopProduct, g: Grid, ps: seq<Peca>, peca: Peca, pos: Position,
                           ox: int, oy: int, dx: int, dy: int, qPos: Position)
    requires board.Valid() && CaptureSafe(g, peca, ox, oy, dx, dy, qPos)
    reads board, board.pieceGrid, peca
  {
    board.Rows() == CaptureGrid(g, peca, ox, oy, dx, dy, qPos)
    && board.pieces == CapturePieces(g, ps, peca, ox, oy, dx, dy, qPos)
    && peca.position == (if MoveGuard(g, peca, ox, oy, dx, dy) then Position(dx, dy) else pos)
  }

  /** Grid, list and the mover's position are as they were. */
  ghost predicate Unmoved(board: TabletopProduct, g: Grid, ps: seq<Peca>, peca: Peca, pos: Position)
    requires board.Valid()
    reads board, board.pieceGrid, peca
  {
    board.Rows() == g && board.pieces == ps && peca.position == pos
  }

  /** The capture the rules share once their guards pass. The target is never the mover. */
  method MoveAndCapture(board: TabletopProduct, peca: Peca, alvo: Peca?, ox: int, oy: int, dx: int, dy: int)
    requires board.Valid() && alvo == board.GetPieceAt(dx, dy) && alvo != peca
    requires CaptureSafe(board.Rows(), peca, ox, oy, dx, dy, PosOf(alvo))
    modifies board.pieceGrid, board`pieces, peca`position
    ensures Captured(board, old(board.Rows()), old(board.pieces), peca, old(peca.position), ox, oy, dx, dy, old(PosOf(alvo)))
  {
    var moved := board.MovePiece(peca, ox, oy, dx, dy);
    if alvo != null {
      var removed := board.RemovePiece(alvo);
    }
  }

  method MoverBasico(peca: Peca, board: TabletopProduct, ox: int, oy: int, dx: int, dy: int) returns (r: bool)
    requires board.Valid() && DestCell(board, ox, oy, dx, dy)
    requires BasicoAccepts(board, peca.side, ox, oy, dx, dy) ==> CaptureSafe(board.Rows(), peca, ox, oy, dx, dy, PosOf(board.GetPieceAt(dx, dy)))
    modifies board.pieceGrid, board`pieces, peca`position
    ensures r == old(BasicoAccepts(board, peca.side, ox, oy, dx, dy))
    ensures r ==> Captured(board, old(board.Rows()), old(board.pieces), peca, old(peca.position), ox, oy, dx, dy, old(PosOf(board.GetPieceAt(dx, dy))))
    ensures !r ==> Unmoved(board, old(board.Rows()), old(board.pieces), peca, old(peca.position))
  {
    if !board.IsWithinBounds(dx, dy) || Abs(ox - dx) + Abs(oy - dy) != 1 {
      return false;
    }
    if board.GetCellType(dx, dy) == Water {
      return false;
    }
    var alvo := board.GetPieceAt(dx, dy);
    if alvo != null {
      if alvo.side == peca.side {
        return false;
      }
    }
    MoveAndCapture(board, peca, alvo, ox, oy, dx, dy);
    return true;
  }

  method MoverElefante(peca: Peca, board: TabletopProduct, ox: int, oy: int, dx: int, dy: int) returns (r: bool)
    requires board.Valid() && DestCell(board, ox, oy, dx, dy)
    requires ElefanteAccepts(board, peca.side, ox, oy, dx, dy) ==> CaptureSafe(board.Rows(), peca, ox, oy, dx, dy, PosOf(board.GetPieceAt(dx, dy)))
    modifies board.pieceGrid, board`pieces, peca`position
    ensures r == old(ElefanteAccepts(board, peca.side, ox, oy, dx, dy))
    ensures r ==> Captured(board, old(board.Rows()), old(board.pieces), peca, old(peca.position), ox, oy, dx, dy, old(PosOf(board.GetPieceAt(dx, dy))))
    ensures !r ==> Unmoved(board, old(board.Rows()), old(board.pieces), peca, old(peca.position))
  {
    if !board.IsWithinBounds(dx, dy) || Abs(ox - dx) + Abs(oy - dy) != 1 {
      return false;
    }
    if board.GetCellType(dx, dy) == Water {
      return false;
    }
    var alvo := board.GetPieceAt(dx, dy);
    if alvo != null && alvo.side == peca.side {
      return false;
    }
    if alvo != null && alvo.nome == "Rato" {
      return false;
    }
    MoveAndCapture(board, peca, alvo, ox, oy, dx, dy);
    return true;
  }

  method MoverRato(peca: Peca, board: TabletopProduct, ox: int, oy: int, dx: int, dy: int) returns (r: bool)
    requires board.Valid() && BothCells(board, ox, oy, dx, dy)
    requires RatoAccepts(board, peca.side, ox, oy, dx, dy) ==> CaptureSafe(board.Rows(), peca, ox, oy, dx, dy, PosOf(board.GetPieceAt(dx, dy)))
    modifies board.pieceGrid, board`pieces, peca`position
    ensures r == old(RatoAccepts(board, peca.side, ox, oy, dx, dy))
    ensures r ==> Captured(board, old(board.Rows()), old(board.pieces), peca, old(peca.position), ox, oy, dx, dy, old(PosOf(board.GetPieceAt(dx, dy))))
    ensures !r ==> Unmoved(board, old(board.Rows()), old(board.pieces), peca, old(peca.position))
  {
    if !board.IsWithinBounds(dx, dy) || Abs(ox - dx) + Abs(oy - dy) != 1 {
      return false;
    }
    var origemType := board.GetCellType(ox, oy);
    var destinoType := board.GetCellType(dx, dy);
    var alvo := board.GetPieceAt(dx, dy);
    if alvo != null && alvo.side == peca.side {
      return false;
    }
    if origemType == Water && destinoType == Land && alvo != null && alvo.nome == "Elefante" {
      return false;
    }
    MoveAndCapture(board, peca, alvo, ox, oy, dx, dy);
    return true;
  }

  /** `LeaoMovimentoStrategy.jump`: no bounds, water or path check. */
  method Jump(board: TabletopProduct, peca: Peca, ox: int, oy: int, dx: int, dy: int) returns (r: bool)
    requires board.Valid()
    requires JumpAccepts(board, peca.side, dx, dy) ==> CaptureSafe(board.Rows(), peca, ox, oy, dx, dy, PosOf(board.GetPieceAt(dx, dy)))
    modifies board.pieceGrid, board`pieces, peca`position
    ensures r == old(JumpAccepts(board, peca.side, dx, dy))
    ensures r ==> Captured(board, old(board.Rows()), old(board.pieces), peca, old(peca.position), ox, oy, dx, dy, old(PosOf(board.GetPieceAt(dx, dy))))
    ensures !r ==> Unmoved(board, old(board.Rows()), old(board.pieces), peca, old(peca.position))
  {
    var alvo := board.GetPieceAt(dx, dy);
    if alvo != null && alvo.side == peca.side {
      return false;
    }
    MoveAndCapture(board, peca, alvo, ox, oy, dx, dy);
    return true;
  }

  method MoverLeao(peca: Peca, board: TabletopProduct, ox: int, oy: int, dx: int, dy: int) returns (r: bool)
    requires board.Valid() && LeaoCells(board, ox, oy, dx, dy)
    requires LeaoAccepts(board, peca.side, ox, oy, dx, dy) ==> CaptureSafe(board.Rows(), peca, ox, oy, dx, dy, PosOf(board.GetPieceAt(dx, dy)))
    modifies board.pieceGrid, board`pieces, peca`position
    ensures r == old(LeaoAccepts(board, peca.side, ox, oy, dx, dy))
    ensures r ==> Captured(board, old(board.Rows()), old(board.pieces), peca, old(peca.position), ox, oy, dx, dy, old(PosOf(board.GetPieceAt(dx, dy))))
    ensures !r ==> Unmoved(board, old(board.Rows()), old(board.pieces), peca, old(peca.position))
  {
    if ox == dx && IsRiverJump(ox, oy, dx, dy) {
      r := Jump(board, peca, ox, oy, dx, dy);
      return;
    }
    if oy == dy && IsRiverJump(ox, oy, dx, dy) {
      r := Jump(board, peca, ox, oy, dx, dy);
      return;
    }
    r := MoverElefante(peca, board, ox, oy, dx, dy);
  }

  /**
   * `TigreMovimentoStrategy.mover`: decides on the coordinates alone and, on
   * success, notifies the subject. `atualizarTabuleiro` only prints, so the
   * board is not touched.
   */
  method MoverTigre(ox: int, oy: int, dx: int, dy: int, subject: TabletopSubject) returns (r: bool)
    modifies subject`delivered
    ensures r == TigreAccepts(ox, oy, dx, dy)
    ensures subject.delivered == old(subject.delivered) + if r then Broadcast(subject.observers, TigreMessage(dx, dy)) else []
  {
    var movimentoValido := TigreStep(ox, oy, dx, dy);
    if TigreLeap(ox, oy, dx, dy) {
      movimentoValido := true;
    }
    if movimentoValido {
      subject.NotifyObservers(TigreMessage(dx, dy));
    }
    return movimentoValido;
  }

  // ----- properties of the rules -----

  /** The elephant's rule is the basic rule minus the capture of a "Rato". */
  lemma ElefanteIsBasicoWithoutRato(board: TabletopProduct, side: PlayerSide, ox: int, oy: int, dx: int, dy: int)
    requires board.Valid() && DestCell(board, ox, oy, dx, dy)
    ensures ElefanteAccepts(board, side, ox, oy, dx, dy) <==> BasicoAccepts(board, side, ox, oy, dx, dy) && !TargetNamed(board, dx, dy, "Rato")
  {
  }

  /** The basic rule rejects every move that is not one step, stays on the board, avoids water and does not land on an own piece. */
  lemma BasicoRejections(board: TabletopProduct, side: PlayerSide, ox: int, oy: int, dx: int, dy: int)
    requires board.Valid() && DestCell(board, ox, oy, dx, dy)
    ensures !board.IsWithinBounds(dx, dy) ==> !BasicoAccepts(board, side, ox, oy, dx, dy)
    ensures !UnitStep(ox, oy, dx, dy) ==> !BasicoAccepts(board, side, ox, oy, dx, dy)
    ensures board.IsWithinBounds(dx, dy) && UnitStep(ox, oy, dx, dy) && board.GetCellType(dx, dy) == Water ==> !BasicoAccepts(board, side, ox, oy, dx, dy)
    ensures board.GetPieceAt(dx, dy) != null && board.GetPieceAt(dx, dy).side == side ==> !BasicoAccepts(board, side, ox, oy, dx, dy)
  {
  }

  /**
   * The rat has no water rule: in bounds and one step away, it may enter an
   * empty water cell, and its only rejection beyond the basic ones is an
   * "Elefante" on land reached from water.
   */
  lemma RatoRule(board: TabletopProduct, side: PlayerSide, ox: int, oy: int, dx: int, dy: int)
    requires board.Valid() && BothCells(board, ox, oy, dx, dy)
    ensures board.IsWithinBounds(dx, dy) && UnitStep(ox, oy, dx, dy) && board.GetPieceAt(dx, dy) == null ==> RatoAccepts(board, side, ox, oy, dx, dy)
    ensures board.IsWithinBounds(dx, dy) && UnitStep(ox, oy, dx, dy) && EnemyOrEmpty(board, side, dx, dy) && !TargetNamed(board, dx, dy, "Elefante")
      ==> RatoAccepts(board, side, ox, oy, dx, dy)
    ensures board.IsWithinBounds(dx, dy) && UnitStep(ox, oy, dx, dy) && EnemyOrEmpty(board, side, dx, dy)
      && !(board.GetCellType(ox, oy) == Water && board.GetCellType(dx, dy) == Land)
      ==> RatoAccepts(board, side, ox, oy, dx, dy)
  {
  }

  /** On a shared axis the summed difference is the distance along the other axis. */
  lemma RiverJumpOnAxis(ox: int, oy: int, dx: int, dy: int)
    ensures ox == dx ==> (IsRiverJump(ox, oy, dx, dy) <==> Abs(oy - dy) > 1)
    ensures oy == dy ==> (IsRiverJump(ox, oy, dx, dy) <==> Abs(ox - dx) > 1)
    ensures LeaoJumps(ox, oy, dx, dy) <==> (ox == dx && Abs(oy - dy) > 1) || (oy == dy && Abs(ox - dx) > 1)
  {
  }

  /**
   * A lion's jump checks no bounds: a straight move of two or more squares
   * to a destination off the board is accepted, although `movePiece` then
   * does nothing.
   */
  lemma LeaoJumpOffBoard(board: TabletopProduct, side: PlayerSide, ox: int, oy: int, dx: int, dy: int)
    requires board.Valid() && LeaoCells(board, ox, oy, dx, dy)
    requires (ox == dx && Abs(oy - dy) > 1) || (oy == dy && Abs(ox - dx) > 1)
    requires !board.IsWithinBounds(dx, dy)
    ensures LeaoAccepts(board, side, ox, oy, dx, dy)
    ensures forall p: Peca :: !MoveGuard(board.Rows(), p, ox, oy, dx, dy)
  {
    RiverJumpOnAxis(ox, oy, dx, dy);
  }

  /** Every move not taking the jump branch is the elephant's; the zero move and every move off both axes are rejected. */
  lemma LeaoOtherwiseElefante(board: TabletopProduct, side: PlayerSide, ox: int, oy: int, dx: int, dy: int)
    requires board.Valid() && LeaoCells(board, ox, oy, dx, dy)
    ensures !LeaoJumps(ox, oy, dx, dy) ==> (LeaoAccepts(board, side, ox, oy, dx, dy) <==> ElefanteAccepts(board, side, ox, oy, dx, dy))
    ensures (ox == dx && oy == dy) || (ox != dx && oy != dy) ==> !LeaoAccepts(board, side, ox, oy, dx, dy)
  {
  }

  /** The tiger accepts every move but the zero move and the four unit diagonals. */
  lemma TigreRule(ox: int, oy: int, dx: int, dy: int)
    ensures TigreStep(ox, oy, dx, dy) <==> UnitStep(ox, oy, dx, dy)
    ensures TigreAccepts(ox, oy, dx, dy) <==> !(ox == dx && oy == dy) && !(Abs(dx - ox) == 1 && Abs(dy - oy) == 1)
  {
  }

  /**
   * When a rule moves onto an enemy piece of a grid where no piece stands
   * twice, and the mover really stands at the origin, the enemy leaves the
   * grid but stays in the list.
   */
  lemma CaptureKeepsListed(g: Grid, ps: seq<Peca>, peca: Peca, ox: int, oy: int, dx: int, dy: int, qPos: Position)
    requires Injective(g) && MoveGuard(g, peca, ox, oy, dx, dy)
    requires At(g, dx, dy) != null && At(g, dx, dy).side != peca.side
    ensures CaptureSafe(g, peca, ox, oy, dx, dy, qPos)
    ensures CapturePieces(g, ps, peca, ox, oy, dx, dy, qPos) == ps
    ensures !Occurs(CaptureGrid(g, peca, ox, oy, dx, dy, qPos), At(g, dx, dy))
  {
    CapturedStaysListed(g, ps, peca, ox, oy, dx, dy, qPos);
    MovePreservesInjective(g, peca, ox, oy, dx, dy);
  }
}
