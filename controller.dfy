/**
 * The parts of `GameController` that decide the game: which branch of
 * `dispatch` a line takes, the `move` branch (parse, move through the
 * facade, victory test, turn advance), `checkVictory`, `doEnd`, and the
 * lifecycle handlers it calls through its `state` field. The board that
 * `doStart` has the builders make is passed in.
 */
module Controller {
  import opened Wrappers
  import opened Context
  import opened Enums
  import opened FactoryMethod
  import opened JavaText
  import opened Lists
  import opened LogFormat
  import opened Builder
  import opened Strategy
  import opened Observer
  import opened Facade
  import opened Singleton
  import opened Lifecycle

  /** The branches of `dispatch`, in the order it tries them. */
  datatype LineKind = StartLine | MoveLine | UndoLine | ReplayLine | EndLine | UnknownLine

  /** `a.equalsIgnoreCase(b)`, with case taken as `toLowerCase` does on Latin-1. */
  predicate EqualsIgnoreCase(a: string, b: string)
  {
    ToLower(a) == ToLower(b)
  }

  predicate StartsWith(s: string, prefix: string)
  {
    |prefix| <= |s| && s[..|prefix|] == prefix
  }

  /** The branch `dispatch` takes for the (trimmed) line. */
  function Classify(line: string): LineKind
  {
    if EqualsIgnoreCase(line, "start") then StartLine
    else if StartsWith(line, "move") then MoveLine
    else if EqualsIgnoreCase(line, "undo") then UndoLine
    else if EqualsIgnoreCase(line, "replay") then ReplayLine
    else if EqualsIgnoreCase(line, "end") then EndLine
    else UnknownLine
  }

  /** A line is a `start` command exactly when it lower-cases to "start": any mix of cases, nothing around it. */
  lemma ClassifyStart(line: string)
    ensures Classify(line) == StartLine <==> ToLower(line) == "start"
  {
    LowerIs("start", "start");
  }

  /**
   * A line is an `end` command exactly when it lower-cases to "end": no
   * earlier keyword matches such a line, since they have other lengths and
   * `move` needs four characters.
   */
  lemma ClassifyEnd(line: string)
    ensures Classify(line) == EndLine <==> ToLower(line) == "end"
  {
    LowerIs("end", "end");
    if ToLower(line) == "end" {
      assert |line| == 3;
      assert !EqualsIgnoreCase(line, "start") by { assert |ToLower("start")| == 5; }
      assert !StartsWith(line, "move");
      assert !EqualsIgnoreCase(line, "undo") by { assert |ToLower("undo")| == 4; }
      assert !EqualsIgnoreCase(line, "replay") by { assert |ToLower("replay")| == 6; }
    }
  }

  /** A "Move" line is no move: `startsWith` is case-sensitive, and no keyword matches it. */
  lemma ClassifyCapitalMove()
    ensures Classify("Move 1 2 1 3") == UnknownLine
  {
    var line := "Move 1 2 1 3";
    assert |ToLower(line)| == 12;
    assert |ToLower("start")| == 5 && |ToLower("undo")| == 4 && |ToLower("replay")| == 6 && |ToLower("end")| == 3;
    assert !StartsWith(line, "move") by {
      assert line[..4][0] == 'M';
    }
  }

  lemma MoveLinesAreMoves(line: string)
    requires StartsWith(line, "move")
    ensures Classify(line) == MoveLine
  {
    assert line[0] == 'm';
    assert ToLower(line)[0] == 'm';
    LowerIs("start", "start");
  }

  /** The four coordinates of a move line. */
  datatype MoveArgs = MoveArgs(ox: Int32, oy: Int32, dx: Int32, dy: Int32)

  /** What the `move` branch makes of its line before any move. */
  datatype MoveParse = WrongArity | NotIntegers | Parsed(args: MoveArgs)

  /** Exactly five whitespace-separated tokens, the last four of them integers. */
  function ParseMove(line: string): MoveParse
  {
    var parts := SplitSpaces(line);
    if |parts| != 5 then WrongArity
    else
      match (ParseInt(parts[1]), ParseInt(parts[2]), ParseInt(parts[3]), ParseInt(parts[4]))
      case (Some(ox), Some(oy), Some(dx), Some(dy)) => Parsed(MoveArgs(ox, oy, dx, dy))
      case _ => NotIntegers
  }

  /** `checkVictory`'s test: the destination is the other side's den. */
  predicate IsVictory(dest: CellType, current: PlayerSide)
  {
    (dest == DenBlack && current == White) || (dest == DenWhite && current == Black)
  }

  /** On the Selva board White wins by reaching (3, 8) and Black by reaching (3, 0). */
  lemma SelvaVictory(board: TabletopProduct, x: int, y: int, current: PlayerSide)
    requires board.cells == SelvaCells(board.width, board.height) && board.HasCell(x, y)
    ensures IsVictory(board.GetCellType(x, y), current) <==>
      (current == White && x == 3 && y == 8) || (current == Black && x == 3 && y == 0)
  {
    DensExactly(Position(x, y));
  }

  /** What the `move` branch needs so that nothing it calls throws: the facade's needs, and a cell at an accepted destination. */
  ghost predicate MoveNeeds(board: TabletopProduct, side: PlayerSide, a: MoveArgs)
    requires board.Valid()
    reads board.pieceGrid, board.GetPieceAt(a.dx, a.dy)
  {
    LeaoCells(board, a.ox, a.oy, a.dx, a.dy)
    && (LeaoAccepts(board, side, a.ox, a.oy, a.dx, a.dy) && TargetRemoved(board.Rows(), a.dx, a.dy, PosOf(board.GetPieceAt(a.dx, a.dy)))
        ==> ClearAddressable(board.Rows(), PosOf(board.GetPieceAt(a.dx, a.dy))))
    && (LeaoAccepts(board, side, a.ox, a.oy, a.dx, a.dy) ==> board.HasCell(a.dx, a.dy))
  }

  /** Whether an accepted move onto `a`'s destination wins for `side`. */
  predicate Wins(board: TabletopProduct, side: PlayerSide, a: MoveArgs)
  {
    board.HasCell(a.dx, a.dy) && IsVictory(board.GetCellType(a.dx, a.dy), side)
  }

  /** The name the `move` branch hands to the facade: the origin occupant's, or empty. */
  function NameAt(board: TabletopProduct, x: int, y: int): string
    requires board.Valid()
    reads board.pieceGrid
  {
    var p := board.GetPieceAt(x, y);
    if p != null then p.nome else ""
  }

  class GameController {
    const facade: GameFacade
    const turnManager: TurnManager
    var state: GameState
    var gameOver: bool

    constructor (facade: GameFacade, registry: TurnRegistry)
      modifies registry
      ensures this.facade == facade && turnManager == registry.instance
      ensures old(registry.instance) != null ==> turnManager == old(registry.instance)
      ensures old(registry.instance) == null ==> fresh(turnManager) && turnManager.currentSide == White
      ensures state == NotStartedState && !gameOver
    {
      var t := registry.GetInstance();
      this.facade := facade;
      turnManager := t;
      state := NotStartedState;
      gameOver := false;
    }

    /** `doEnd()`: the run loop stops. */
    method DoEnd()
      modifies this`gameOver
      ensures gameOver
    {
      gameOver := true;
    }

    /** `doStart()`: the facade gets the Selva board, seven wide and nine tall, then divides it; both steps are announced in that order. */
    method DoStart(selva: TabletopProduct)
      requires selva.width == 7 && selva.height == 9 && selva.cells == SelvaCells(7, 9)
      modifies facade`board, facade.subject`state, facade.subject`delivered
      ensures facade.board == selva && facade.subject.state == BoardDivided
      ensures facade.subject.delivered == old(facade.subject.delivered)
        + Broadcast(facade.subject.observers, SelvaConfigured) + Broadcast(facade.subject.observers, BoardDivided)
    {
      facade.SetupBoard(selva);
      facade.DivideBoard();
    }

    /** `state.start(this)`. */
    method Start(selva: TabletopProduct)
      requires selva.width == 7 && selva.height == 9 && selva.cells == SelvaCells(7, 9)
      modifies this`state, facade`board, facade.subject`state, facade.subject`delivered
      ensures state == Next(old(state), Lifecycle.Start)
      ensures facade.board == if RunsStart(old(state), Lifecycle.Start) then selva else old(facade.board)
      ensures facade.subject.state == if RunsStart(old(state), Lifecycle.Start) then BoardDivided else old(facade.subject.state)
      ensures facade.subject.delivered == old(facade.subject.delivered) + if RunsStart(old(state), Lifecycle.Start)
        then Broadcast(facade.subject.observers, SelvaConfigured) + Broadcast(facade.subject.observers, BoardDivided)
        else []
    {
      match state
      case NotStartedState =>
        DoStart(selva);
        state := InProgressState;
      case InProgressState =>
      case EndedState =>
    }

    /** `state.end(this)`. */
    method End()
      modifies this`state, this`gameOver
      ensures state == Next(old(state), Lifecycle.End)
      ensures gameOver == (old(gameOver) || RunsEnd(old(state), Lifecycle.End))
    {
      match state
      case NotStartedState =>
      case InProgressState =>
        DoEnd();
        state := EndedState;
      case EndedState =>
    }

    /** `checkVictory(dx, dy)`: a move onto the other side's den ends the game. */
    method CheckVictory(dx: int, dy: int)
      requires facade.board != null && facade.board.HasCell(dx, dy)
      modifies this`state, this`gameOver
      ensures var win := IsVictory(facade.board.GetCellType(dx, dy), turnManager.currentSide);
        state == (if win then Next(old(state), Lifecycle.End) else old(state))
        && gameOver == (old(gameOver) || (win && RunsEnd(old(state), Lifecycle.End)))
    {
      var dest := facade.board.GetCellType(dx, dy);
      var current := turnManager.GetCurrentSide();
      if (dest == DenBlack && current == White) || (dest == DenWhite && current == Black) {
        End();
      }
    }

    /**
     * The `move` branch of `dispatch`. A line that is not five tokens of
     * which the last four are integers changes nothing. Otherwise the side to
     * move plays through the facade; a move onto the other side's den ends
     * the game; the turn passes only after an accepted move that did not end
     * it. The name given to the facade is the occupant's at the origin, or
     * empty.
     */
    method MoveBranch(line: string) returns (moved: bool)
      requires facade.board != null && facade.board.Valid()
      requires ParseMove(line).Parsed? ==> MoveNeeds(facade.board, turnManager.currentSide, ParseMove(line).args)
      modifies facade.board.pieceGrid, facade.board`pieces, facade.subject`delivered, facade.log`lines, facade.invoker`history
      modifies turnManager, this`state, this`gameOver
      ensures !ParseMove(line).Parsed? ==>
        !moved && turnManager.currentSide == old(turnManager.currentSide)
        && state == old(state) && gameOver == old(gameOver) && facade.invoker.history == old(facade.invoker.history)
        && facade.board.Rows() == old(facade.board.Rows()) && facade.board.pieces == old(facade.board.pieces)
        && facade.log.lines == old(facade.log.lines) && facade.subject.delivered == old(facade.subject.delivered)
      ensures ParseMove(line).Parsed? ==> var a := ParseMove(line).args; var side := old(turnManager.currentSide);
        && moved == old(LeaoAccepts(facade.board, side, a.ox, a.oy, a.dx, a.dy))
        && |facade.invoker.history| == |old(facade.invoker.history)| + (if moved then 1 else 0)
        && var win := moved && Wins(facade.board, side, a);
          && state == (if win then Next(old(state), Lifecycle.End) else old(state))
          && gameOver == (old(gameOver) || (win && RunsEnd(old(state), Lifecycle.End)))
          && turnManager.currentSide == (if moved && !gameOver then Other(side) else side)
      ensures ParseMove(line).Parsed? ==> var a := ParseMove(line).args;
        var q := old(facade.board.GetPieceAt(a.dx, a.dy)); var qPos := old(PosOf(facade.board.GetPieceAt(a.dx, a.dy)));
        if moved && old(TargetRemoved(facade.board.Rows(), a.dx, a.dy, qPos))
        then facade.board.Rows() == ClearedAt(old(facade.board.Rows()), qPos) && facade.board.pieces == RemoveFirst(old(facade.board.pieces), q)
        else facade.board.Rows() == old(facade.board.Rows()) && facade.board.pieces == old(facade.board.pieces)
      ensures ParseMove(line).Parsed? ==> var a := ParseMove(line).args;
        && facade.subject.delivered == old(facade.subject.delivered)
        && facade.log.lines == old(facade.log.lines) + if moved
          then [Serialize(LogEntry(old(NameAt(facade.board, a.ox, a.oy)), old(turnManager.currentSide), a.ox, a.oy, a.dx, a.dy))]
          else []
    {
      var parts := SplitSpaces(line);
      if |parts| != 5 {
        return false;
      }
      var pox, poy, pdx, pdy := ParseInt(parts[1]), ParseInt(parts[2]), ParseInt(parts[3]), ParseInt(parts[4]);
      if pox.None? || poy.None? || pdx.None? || pdy.None? {
        return false;
      }
      var ox, oy, dx, dy := pox.value, poy.value, pdx.value, pdy.value;
      var occupant := facade.board.GetPieceAt(ox, oy);
      var pieceName := if occupant != null then occupant.nome else "";
      var current := turnManager.GetCurrentSide();
      if !turnManager.IsCurrentPlayer(current) {
        assert false;
      }
      moved := facade.ExecuteMove(pieceName, current, ox, oy, dx, dy);
      if moved {
        CheckVictory(dx, dy);
        if !gameOver {
          turnManager.SwitchTurn();
        }
      }
    }
  }
}
