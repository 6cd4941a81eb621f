/**
 * The `context` package: positions, sides and the piece entity `Peca`.
 * `Position` is modelled as the datatype `Position(row, col)`
 * (`Position(a, b)` sets `row = a`, `col = b`), and `PlayerSide` as the
 * two-valued datatype `White | Black`.
 * The movement strategies and piece states have no fields, so each is
 * modelled by its class alone; their behaviour is in modules Strategy and
 * PieceState, which depend on the board.
 */
module Context {
  import opened Wrappers

  datatype Position = Position(row: int, col: int)

  datatype PlayerSide = White | Black {
    /** `PlayerSide.name()` */
    function Name(): (s: string)
      ensures s == "WHITE" || s == "BLACK"
    {
      match this
      case White => "WHITE"
      case Black => "BLACK"
    }

    /** `PlayerSide.valueOf(s)`, which throws for any other name. */
    static function ValueOf(s: string): (r: Option<PlayerSide>)
      ensures r.Some? ==> r.value.Name() == s
      ensures r.None? <==> s != "WHITE" && s != "BLACK"
    {
      if s == "WHITE" then Some(White)
      else if s == "BLACK" then Some(Black)
      else None
    }
  }

  /** The classes implementing `MovimentoStrategy`; `NullPieceMovimento` is NullPiece's anonymous one. */
  datatype MovimentoStrategy =
    | MovimentoBasico
    | ElefanteMovimento
    | RatoMovimento
    | LeaoMovimento
    | TigreMovimento
    | NullPieceMovimento

  /** The classes implementing `PecaState`. */
  datatype PecaState = NormalState | BloqueadaState

  /** A game piece. Name and side have no setters, so they are constants. */
  class Peca {
    const nome: string
    const side: PlayerSide
    var movimentoStrategy: Option<MovimentoStrategy>
    var state: PecaState
    var position: Position

    /** The four-argument constructor: every new piece starts in NormalState. */
    constructor (nome: string, side: PlayerSide, movimentoStrategy: Option<MovimentoStrategy>, start: Position)
      ensures this.nome == nome && this.side == side
      ensures this.movimentoStrategy == movimentoStrategy
      ensures state == NormalState && position == start
    {
      this.nome := nome;
      this.side := side;
      this.movimentoStrategy := movimentoStrategy;
      this.state := NormalState;
      this.position := start;
    }

    /**
     * The three-argument constructor the factories call, which the class does
     * not declare; its evident intent is a piece with no start position. The
     * model gives it `Position(0, 0)`; the builder path that places such
     * pieces by this position is not modelled (see `Builder.SamePositionLastWins`).
     */
    constructor Unplaced(nome: string, side: PlayerSide, movimentoStrategy: Option<MovimentoStrategy>)
      ensures this.nome == nome && this.side == side
      ensures this.movimentoStrategy == movimentoStrategy
      ensures state == NormalState && position == Position(0, 0)
    {
      this.nome := nome;
      this.side := side;
      this.movimentoStrategy := movimentoStrategy;
      this.state := NormalState;
      this.position := Position(0, 0);
    }

    method SetPosition(newPos: Position)
      modifies this`position
      ensures position == newPos
    {
      position := newPos;
    }

    method SetMovimentoStrategy(s: Option<MovimentoStrategy>)
      modifies this`movimentoStrategy
      ensures movimentoStrategy == s
    {
      movimentoStrategy := s;
    }

    method SetState(s: PecaState)
      modifies this`state
      ensures state == s
    {
      state := s;
    }

    /**
     * A new piece with the same name, side and (shared) strategy and an equal
     * position; the constructor puts it in NormalState, so a blocked piece
     * comes back unblocked.
     */
    method DeepClone() returns (c: Peca)
      ensures fresh(c)
      ensures c.nome == nome && c.side == side && c.movimentoStrategy == movimentoStrategy
      ensures c.position == position && c.state == NormalState
    {
      c := new Peca(nome, side, movimentoStrategy, Position(position.row, position.col));
    }
  }
}
