/**
 * The `facade` package: `GameFacade` holds the board, the subject with its
 * one observer, the command invoker and the command log. Its `executeMove`
 * builds a new lion piece from the name and side it is given and runs a
 * `MoverPecaCommand` for it. Because that piece is never on the board,
 * `movePiece` always fails for it; what the move can still do is the
 * capture step's `removePiece` on the destination's occupant.
 */
module Facade {
  import opened Wrappers
  import opened Context
  import opened JavaText
  import opened Lists
  import opened Builder
  import opened Observer
  import opened Strategy
  import opened PieceState
  import opened LogFormat
  import opened Command

  /** The destination's occupant passes `removePiece`'s guard when it is at position `qPos`. */
  predicate TargetRemoved(g: Grid, dx: int, dy: int, qPos: Position)
  {
    At(g, dx, dy) != null && RemoveGuard(g, At(g, dx, dy), qPos)
  }

  /** What `setupSelva` and `divideBoard` announce through the subject. */
  const SelvaConfigured := "Jogo Selva configurado"
  const BoardDivided := "Tabuleiro dividido em branco/preto."

  class GameFacade {
    var board: TabletopProduct?
    const subject: TabletopSubject
    const invoker: CommandInvoker
    const log: LogFile

    /** A new facade: no board yet, an empty history, and a subject in state "Inicial" with one observer attached. */
    constructor (log: LogFile)
      ensures board == null && this.log == log
      ensures fresh(subject) && fresh(invoker) && invoker.history == []
      ensures |subject.observers| == 1 && fresh(subject.observers[0]) && subject.delivered == []
      ensures subject.state == "Inicial"
    {
      var s := new TabletopSubject("Inicial");
      var o := new TabletopObserver();
      s.Attach(o);
      var inv := new CommandInvoker();
      board := null;
      subject := s;
      invoker := inv;
      this.log := log;
    }

    /** The end of `setupSelva`: the board the builders made becomes the facade's board, and the subject announces it. */
    method SetupBoard(built: TabletopProduct)
      modifies this`board, subject`state, subject`delivered
      ensures board == built
      ensures subject.state == SelvaConfigured
      ensures subject.delivered == old(subject.delivered) + Broadcast(subject.observers, SelvaConfigured)
    {
      board := built;
      subject.SetState(SelvaConfigured);
    }

    /** What `divideBoard` does to the subject: it announces the division. */
    method DivideBoard()
      modifies subject`state, subject`delivered
      ensures subject.state == BoardDivided
      ensures subject.delivered == old(subject.delivered) + Broadcast(subject.observers, BoardDivided)
    {
      subject.SetState(BoardDivided);
    }

    /**
     * `executeMove(pieceName, side, ox, oy, dx, dy)`: accepted exactly when the
     * lion's rule accepts the move for `side`. No piece is ever placed: the
     * board changes only when the capture step's guard passes, and then one
     * cell is cleared and the occupant's first occurrence leaves the list.
     * An accepted move is logged and pushed on the history.
     */
    method ExecuteMove(pieceName: string, side: PlayerSide, ox: Int32, oy: Int32, dx: Int32, dy: Int32) returns (r: bool)
      requires board != null && board.Valid() && LeaoCells(board, ox, oy, dx, dy)
      requires LeaoAccepts(board, side, ox, oy, dx, dy) && TargetRemoved(board.Rows(), dx, dy, PosOf(board.GetPieceAt(dx, dy)))
        ==> ClearAddressable(board.Rows(), PosOf(board.GetPieceAt(dx, dy)))
      modifies board.pieceGrid, board`pieces, subject`delivered, log`lines, invoker`history
      ensures r == old(LeaoAccepts(board, side, ox, oy, dx, dy))
      ensures var q := old(board.GetPieceAt(dx, dy)); var qPos := old(PosOf(board.GetPieceAt(dx, dy)));
        if r && old(TargetRemoved(board.Rows(), dx, dy, qPos))
        then board.Rows() == ClearedAt(old(board.Rows()), qPos) && board.pieces == RemoveFirst(old(board.pieces), q)
        else board.Rows() == old(board.Rows()) && board.pieces == old(board.pieces)
      ensures subject.delivered == old(subject.delivered)
      ensures log.lines == old(log.lines) + (if r then [LogFormat.Serialize(LogEntry(pieceName, side, ox, oy, dx, dy))] else [])
      ensures |invoker.history| == |old(invoker.history)| + (if r then 1 else 0)
      ensures invoker.history[..|old(invoker.history)|] == old(invoker.history)
      ensures r ==> var c := invoker.history[|invoker.history| - 1];
        fresh(c) && fresh(c.peca) && c.board == board && c.subject == subject && c.log == log
        && c.Entry() == LogEntry(pieceName, side, ox, oy, dx, dy) && c.peca.movimentoStrategy == Some(LeaoMovimento)
    {
      ghost var g, ps := board.Rows(), board.pieces;
      ghost var q, qPos := board.GetPieceAt(dx, dy), PosOf(board.GetPieceAt(dx, dy));
      ghost var accepts := LeaoAccepts(board, side, ox, oy, dx, dy);
      ghost var removes := TargetRemoved(g, dx, dy, qPos);
      var cmd := NewLeaoCommand(pieceName, side, ox, oy, dx, dy);
      var piece := cmd.peca;
      assert At(g, ox, oy) != piece;
      assert !MoveGuard(g, piece, ox, oy, dx, dy);
      assert board.Rows() == g && board.pieces == ps && board.GetPieceAt(dx, dy) == q;
      assert cmd.Ready() && PecaAccepts(piece, board, ox, oy, dx, dy) == accepts && PecaMovesOnBoard(piece);
      assert CaptureRemoves(g, piece, ox, oy, dx, dy, qPos) == removes;
      r := invoker.ExecuteCommand(cmd);
      assert r == accepts;
      assert r ==> board.Rows() == CaptureGrid(g, piece, ox, oy, dx, dy, qPos) && board.pieces == CapturePieces(g, ps, piece, ox, oy, dx, dy, qPos);
      assert !r ==> board.Rows() == g && board.pieces == ps;
      assert invoker.history[..|old(invoker.history)|] == old(invoker.history);
    }

    /** The command `executeMove` runs: a new lion piece of the given name and side, standing at the origin. */
    method NewLeaoCommand(pieceName: string, side: PlayerSide, ox: Int32, oy: Int32, dx: Int32, dy: Int32) returns (cmd: MoverPecaCommand)
      requires board != null
      ensures fresh(cmd) && fresh(cmd.peca)
      ensures cmd.board == board && cmd.subject == subject && cmd.log == log
      ensures cmd.origemX == ox && cmd.origemY == oy && cmd.destinoX == dx && cmd.destinoY == dy
      ensures cmd.peca.nome == pieceName && cmd.peca.side == side && cmd.peca.movimentoStrategy == Some(LeaoMovimento)
      ensures cmd.peca.state == NormalState && cmd.peca.position == Position(ox, oy)
    {
      var piece := new Peca(pieceName, side, Some(LeaoMovimento), Position(ox, oy));
      cmd := new MoverPecaCommand(piece, board, ox, oy, dx, dy, subject, log);
    }

    /** The command on top of the history, as a set: empty when there is none. */
    ghost function Top(): set<MoverPecaCommand>
      reads invoker
    {
      if |invoker.history| > 0 then {invoker.history[|invoker.history| - 1]} else {}
    }

    /**
     * `replay()`: run the command on top of the history once more (nothing
     * happens when the history is empty). It answers the command's result,
     * which the source discards.
     */
    method Replay() returns (r: bool)
      requires |invoker.history| > 0 ==> var c := invoker.history[|invoker.history| - 1];
        c.board.Valid() && c.Ready()
      modifies set c | c in Top() :: c.board.pieceGrid
      modifies (set c | c in Top() :: c.board)`pieces, (set c | c in Top() :: c.peca)`position
      modifies (set c | c in Top() :: c.subject)`delivered, (set c | c in Top() :: c.log)`lines
      modifies invoker`history
      ensures old(|invoker.history|) == 0 ==> !r && invoker.history == old(invoker.history)
      ensures old(|invoker.history|) > 0 ==> var c := old(invoker.history[|invoker.history| - 1]);
        c.Executed(r) && invoker.history == old(invoker.history) + (if r then [c] else [])
    {
      var last := invoker.GetLastCommand();
      if last == null {
        return false;
      }
      r := invoker.ExecuteCommand(last);
    }
  }

  /** A facade capture never places a piece: every cell ends as it was or empty. */
  lemma ClearOnlyEmpties(g: Grid, pos: Position)
    requires ClearAddressable(g, pos)
    ensures |ClearedAt(g, pos)| == |g|
    ensures forall y, x | InRange(g, x, y) :: ClearedAt(g, pos)[y][x] == g[y][x] || ClearedAt(g, pos)[y][x] == null
    ensures forall y, x | InRange(g, x, y) && !(y == pos.row && x == pos.col) :: ClearedAt(g, pos)[y][x] == g[y][x]
  {
  }

  /**
   * On a grid where no piece stands twice, a facade capture off the diagonal
   * leaves the captured piece on its cell and empties the transposed cell
   * (row `dx`, column `dy`) instead.
   */
  lemma FacadeCaptureMissesTarget(g: Grid, dx: int, dy: int, qPos: Position)
    requires Injective(g) && TargetRemoved(g, dx, dy, qPos) && ClearAddressable(g, qPos) && dx != dy
    ensures qPos == Position(dx, dy)
    ensures ClearedAt(g, qPos)[dy][dx] == At(g, dx, dy)
    ensures ClearedAt(g, qPos)[dx][dy] == null
    ensures Occurs(ClearedAt(g, qPos), At(g, dx, dy))
  {
    var q := At(g, dx, dy);
    assert InRange(g, dx, dy) && g[dy][dx] == q;
    assert InRange(g, qPos.row, qPos.col) && g[qPos.col][qPos.row] == q;
    assert qPos.col == dy && qPos.row == dx;
    RemoveClearsTransposedCell(g, q, qPos);
  }
}
