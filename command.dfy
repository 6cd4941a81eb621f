/**
 * The `command` package: `MoverPecaCommand` moves one piece through its own
 * `mover` and appends its serialized line to the command log when the move
 * is accepted; `CommandInvoker` keeps the accepted commands on a stack;
 * `CommandLogManager.loadCommands` rebuilds commands from the log. The log
 * file is a `LogFile` object holding its lines.
 */
module Command {
  import opened Wrappers
  import opened Context
  import opened JavaText
  import opened Builder
  import opened Observer
  import opened Strategy
  import opened PieceState
  import opened LogFormat
  import opened AbstractFactory
  import opened Memento

  /** The file `command.log`, opened for appending, as the lines written to it so far. */
  class LogFile {
    var lines: seq<string>

    constructor (lines: seq<string>)
      ensures this.lines == lines
    {
      this.lines := lines;
    }

    /** `out.println(line)` on the appending writer. */
    method Append(line: string)
      modifies this`lines
      ensures lines == old(lines) + [line]
    {
      lines := lines + [line];
    }
  }

  class MoverPecaCommand {
    const peca: Peca
    const board: TabletopProduct
    const origemX: Int32
    const origemY: Int32
    const destinoX: Int32
    const destinoY: Int32
    const subject: TabletopSubject
    const log: LogFile

    constructor (peca: Peca, board: TabletopProduct, origemX: Int32, origemY: Int32,
                 destinoX: Int32, destinoY: Int32, subject: TabletopSubject, log: LogFile)
      ensures this.peca == peca && this.board == board && this.subject == subject && this.log == log
      ensures this.origemX == origemX && this.origemY == origemY
      ensures this.destinoX == destinoX && this.destinoY == destinoY
    {
      this.peca := peca;
      this.board := board;
      this.origemX := origemX;
      this.origemY := origemY;
      this.destinoX := destinoX;
      this.destinoY := destinoY;
      this.subject := subject;
      this.log := log;
    }

    /** The fields `serialize` writes. */
    function Entry(): LogEntry
    {
      LogEntry(peca.nome, peca.side, origemX, origemY, destinoX, destinoY)
    }

    /** `serialize()`: a log line that the loader reads back as this command's fields, unless the name holds a `;`. */
    function Serialize(): (s: string)
      ensures ';' !in peca.nome ==> ParseLine(s) == Success(Some(Entry()))
    {
      if ';' in peca.nome then LogFormat.Serialize(Entry())
      else ParseOfSerialize(Entry()); LogFormat.Serialize(Entry())
    }

    /** What `peca.mover` needs to run on the board without an exception. */
    ghost predicate Ready()
      requires board.Valid()
      reads peca, board.pieceGrid, board.GetPieceAt(destinoX, destinoY)
    {
      PecaCells(peca, board, origemX, origemY, destinoX, destinoY)
      && PecaSafe(peca, board, origemX, origemY, destinoX, destinoY)
    }

    /**
     * What one `execute()` did: the answer is the piece's own rule; an accepted
     * board move is the move and capture, anything else leaves board and piece
     * alone; an accepted tiger move is announced; an accepted move is logged.
     */
    twostate predicate Executed(r: bool)
      requires board.Valid() && old(Ready())
      reads peca, board, board.pieceGrid, subject, log
    {
      && r == old(PecaAccepts(peca, board, origemX, origemY, destinoX, destinoY))
      && (r && old(PecaMovesOnBoard(peca)) ==>
            Captured(board, old(board.Rows()), old(board.pieces), peca, old(peca.position),
                     origemX, origemY, destinoX, destinoY, old(PosOf(board.GetPieceAt(destinoX, destinoY)))))
      && (!(r && old(PecaMovesOnBoard(peca))) ==> Unmoved(board, old(board.Rows()), old(board.pieces), peca, old(peca.position)))
      && subject.delivered == old(subject.delivered)
           + (if r && old(PecaNotifies(peca)) then Broadcast(subject.observers, TigreMessage(destinoX, destinoY)) else [])
      && log.lines == old(log.lines) + (if r then [Serialize()] else [])
    }

    /** `execute()`: move the piece by its own rule and store the command when the move is accepted. */
    method Execute() returns (r: bool)
      requires board.Valid() && Ready()
      modifies board.pieceGrid, board`pieces, peca`position, subject`delivered, log`lines
      ensures Executed(r)
    {
      r := PecaMover(peca, board, origemX, origemY, destinoX, destinoY, subject);
      if r {
        Store();
      }
    }

    /** `store()`: one more line, this command's serialization, at the end of the log. */
    method Store()
      modifies log`lines
      ensures log.lines == old(log.lines) + [Serialize()]
    {
      log.Append(Serialize());
    }

    /** `saveMemento()`: a snapshot of the board as it is now. */
    method SaveMemento() returns (m: BoardMemento)
      requires Cloneable(board)
      ensures fresh(m) && fresh(m.state) && fresh(m.state.pieceGrid) && SnapshotOf(m.state, board)
    {
      m := new BoardMemento(board);
    }

    /** `restore(m)`: the board takes the snapshot's cells and occupants, then the observers hear of it. */
    method Restore(m: BoardMemento)
      requires board.Valid() && m.state.Valid()
      modifies board.pieceGrid, board`pieces, subject`delivered
      ensures forall y, x | 0 <= y < board.height && 0 <= x < board.width ::
        board.pieceGrid[y, x] == At(old(m.state.Rows()), x, y)
      ensures board.pieces == Occupants(old(m.state.Rows()), board.width, board.height)
      ensures subject.delivered == old(subject.delivered) + Broadcast(subject.observers, RestoredMessage)
    {
      board.RestoreState(m.GetState());
      subject.NotifyObservers(RestoredMessage);
    }
  }

  const RestoredMessage: string := "Estado restaurado após undo"

  /**
   * `restoreState` copies grid references, not pieces: after `restore(m)`
   * the live board holds the snapshot's own `Peca` objects, so a move on the
   * live board changes the position of a piece the snapshot lists, while the
   * snapshot's grid still shows it at its old cell.
   */
  method RestoreThenMove(c: MoverPecaCommand, m: BoardMemento, x: int, y: int, dx: int, dy: int) returns (p: Peca?, ok: bool)
    requires c.board.Valid() && m.state.Valid() && c.board.pieceGrid != m.state.pieceGrid
    requires m.state.width == c.board.width && m.state.height == c.board.height
    requires forall yy, xx | 0 <= yy < m.state.height && 0 <= xx < m.state.width ::
      m.state.pieceGrid[yy, xx] == LastPlaced(m.state.pieces, yy, xx)
    requires 0 <= x < c.board.width && 0 <= y < c.board.height && 0 <= dx < c.board.width && 0 <= dy < c.board.height
    requires m.state.pieceGrid[y, x] != null
    modifies c.board.pieceGrid, c.board`pieces, c.subject`delivered, (set q | q in m.state.pieces)`position
    ensures ok && p != null && p == old(m.state.pieceGrid[y, x]) && p in m.state.pieces
    ensures p.position == Position(dx, dy)
    ensures m.state.pieceGrid[y, x] == p && m.state.pieces == old(m.state.pieces)
  {
    c.Restore(m);
    p := c.board.GetPieceAt(x, y);
    ok := c.board.MovePiece(p, x, y, dx, dy);
  }

  /** The stack of executed commands; only accepted ones are pushed. */
  class CommandInvoker {
    var history: seq<MoverPecaCommand>

    constructor ()
      ensures history == []
    {
      history := [];
    }

    /** `executeCommand(c)`: run it, and push it when it answers true. */
    method ExecuteCommand(c: MoverPecaCommand) returns (r: bool)
      requires c.board.Valid() && c.Ready()
      modifies c.board.pieceGrid, c.board`pieces, c.peca`position, c.subject`delivered, c.log`lines, this`history
      ensures c.Executed(r)
      ensures history == old(history) + (if r then [c] else [])
    {
      r := c.Execute();
      if r {
        history := history + [c];
      }
    }

    /** `getLastCommand()`: the top of the stack, or null when it is empty; the stack is left as it is. */
    method GetLastCommand() returns (c: MoverPecaCommand?)
      ensures c == null <==> |history| == 0
      ensures c != null ==> c == history[|history| - 1]
    {
      if |history| == 0 {
        return null;
      }
      c := history[|history| - 1];
    }
  }

  /** The command `loadCommands` builds for one log entry: a piece made by the factory from the logged name and side. */
  ghost predicate Rebuilt(c: MoverPecaCommand, e: LogEntry, board: TabletopProduct, subject: TabletopSubject, log: LogFile)
    reads c.peca
  {
    c.board == board && c.subject == subject && c.log == log
    && c.origemX == e.ox && c.origemY == e.oy && c.destinoX == e.dx && c.destinoY == e.dy
    && c.peca.nome == KindName(Kind(e.nome)) && c.peca.side == KindSide(Kind(e.nome), e.side)
    && c.peca.movimentoStrategy == Some(KindStrategy(Kind(e.nome))) && c.peca.state == NormalState
  }

  /** The command for one log entry, with a new piece from the factory. */
  method Rebuild(e: LogEntry, board: TabletopProduct, subject: TabletopSubject, log: LogFile) returns (c: MoverPecaCommand)
    ensures fresh(c) && fresh(c.peca) && Rebuilt(c, e, board, subject, log)
  {
    var p := Create(e.nome, e.side);
    c := new MoverPecaCommand(p, board, e.ox, e.oy, e.dx, e.dy, subject, log);
  }

  /** The entries `es` followed by the outcome of parsing the rest of the log. */
  function Prepend(es: seq<LogEntry>, rest: Result<seq<LogEntry>, LoadError>): Result<seq<LogEntry>, LoadError>
  {
    match rest
    case Failure(err) => Failure(err)
    case Success(more) => Success(es + more)
  }

  lemma PrependNothing(rest: Result<seq<LogEntry>, LoadError>)
    ensures Prepend([], rest) == rest
  {
    if rest.Success? {
      assert [] + rest.value == rest.value;
    }
  }

  /** Parsing from line `i` on is line `i`'s outcome, then the rest. */
  lemma PrependStep(es: seq<LogEntry>, lines: seq<string>, i: nat)
    requires i < |lines|
    ensures ParseLine(lines[i]).Failure? ==> Prepend(es, ParseLog(lines[i..])) == Failure(ParseLine(lines[i]).error)
    ensures ParseLine(lines[i]).Success? ==>
      var o := ParseLine(lines[i]).value;
      Prepend(es, ParseLog(lines[i..])) == Prepend(es + (if o.Some? then [o.value] else []), ParseLog(lines[i + 1..]))
  {
    assert lines[i..][0] == lines[i];
    assert lines[i..][1..] == lines[i + 1..];
    var line := ParseLine(lines[i]);
    var rest := ParseLog(lines[i + 1..]);
    if line.Success? && rest.Success? {
      var opt := if line.value.Some? then [line.value.value] else [];
      assert ParseLog(lines[i..]) == Success(opt + rest.value);
      assert es + (opt + rest.value) == (es + opt) + rest.value;
    }
  }

  /**
   * `loadCommands(board, subject)` over the log's lines: one rebuilt command
   * per accepted line, in file order, or the exception of the first accepted
   * line that does not convert.
   */
  method LoadCommands(lines: seq<string>, board: TabletopProduct, subject: TabletopSubject, log: LogFile)
    returns (r: Result<seq<MoverPecaCommand>, LoadError>)
    ensures r.Failure? <==> ParseLog(lines).Failure?
    ensures r.Failure? ==> r.error == ParseLog(lines).error
    ensures r.Success? ==> (|r.value| == |ParseLog(lines).value|
      && forall i | 0 <= i < |r.value| :: Rebuilt(r.value[i], ParseLog(lines).value[i], board, subject, log))
    ensures r.Success? ==> forall i | 0 <= i < |r.value| :: fresh(r.value[i]) && fresh(r.value[i].peca)
  {
    var cmds: seq<MoverPecaCommand> := [];
    ghost var entries: seq<LogEntry> := [];
    var i := 0;
    assert lines[i..] == lines;
    PrependNothing(ParseLog(lines));
    while i < |lines|
      invariant 0 <= i <= |lines|
      invariant ParseLog(lines) == Prepend(entries, ParseLog(lines[i..]))
      invariant |cmds| == |entries|
      invariant forall k | 0 <= k < |cmds| :: Rebuilt(cmds[k], entries[k], board, subject, log)
      invariant forall k | 0 <= k < |cmds| :: fresh(cmds[k]) && fresh(cmds[k].peca)
    {
      var line := ParseLine(lines[i]);
      ghost var opt := if line.Success? && line.value.Some? then [line.value.value] else [];
      PrependStep(entries, lines, i);
      ghost var before := entries;
      if line.Failure? {
        return Failure(line.error);
      }
      if line.value.Some? {
        var e := line.value.value;
        var c := Rebuild(e, board, subject, log);
        cmds := cmds + [c];
        entries := entries + [e];
      }
      assert entries == before + opt;
      i := i + 1;
    }
    assert lines[i..] == [];
    r := Success(cmds);
  }

  /** Rebuilding keeps a logged lion, tiger or elephant what it was; any other name comes back as a NullPiece. */
  lemma RebuiltKind(c: MoverPecaCommand, e: LogEntry, board: TabletopProduct, subject: TabletopSubject, log: LogFile)
    requires Rebuilt(c, e, board, subject, log)
    ensures e.nome in {"Leão", "Tigre", "Elefante"} ==> c.peca.nome == e.nome && c.peca.side == e.side
    ensures Kind(e.nome) == NullKind ==>
      c.peca.nome == "Peça Inválida" && c.peca.side == White && c.peca.movimentoStrategy == Some(NullPieceMovimento)
  {
    KindNames();
  }
}
