/**
 * The command log's line format: `MoverPecaCommand.serialize` writes seven
 * `;`-separated fields, and the per-line rule of
 * `CommandLogManager.loadCommands` reads them back.
 */
module LogFormat {
  import opened Wrappers
  import opened Context
  import opened JavaText

  const Tag: string := "MoverPecaCommand"

  /** The fields of one logged move. */
  datatype LogEntry = LogEntry(nome: string, side: PlayerSide, ox: Int32, oy: Int32, dx: Int32, dy: Int32)

  /** What `loadCommands` throws for an accepted line it cannot convert, with the offending text. */
  datatype LoadError = UnknownSide(text: string) | BadNumber(text: string)

  /** `serialize()`: the tag, the name, the side's name and the four coordinates, joined with `;`. */
  function Serialize(e: LogEntry): string
  {
    Join(Fields(e), ';')
  }

  /**
   * One line of the log: skipped (`None`) unless it splits into exactly seven
   * fields headed by the tag; then the side is converted, then the four
   * coordinates in order, and the first failure is the exception thrown.
   */
  function ParseLine(line: string): Result<Option<LogEntry>, LoadError>
  {
    var parts := JavaSplit(line, ';');
    if |parts| != 7 || parts[0] != Tag then Success(None)
    else
      match PlayerSide.ValueOf(parts[2])
      case None => Failure(UnknownSide(parts[2]))
      case Some(side) =>
        match (ParseInt(parts[3]), ParseInt(parts[4]), ParseInt(parts[5]), ParseInt(parts[6]))
        case (Some(ox), Some(oy), Some(dx), Some(dy)) => Success(Some(LogEntry(parts[1], side, ox, oy, dx, dy)))
        case (None, _, _, _) => Failure(BadNumber(parts[3]))
        case (_, None, _, _) => Failure(BadNumber(parts[4]))
        case (_, _, None, _) => Failure(BadNumber(parts[5]))
        case (_, _, _, None) => Failure(BadNumber(parts[6]))
  }

  /** The whole log: the accepted lines' entries in file order, or the first line's exception. */
  function ParseLog(lines: seq<string>): Result<seq<LogEntry>, LoadError>
  {
    if |lines| == 0 then Success([])
    else
      match ParseLine(lines[0])
      case Failure(err) => Failure(err)
      case Success(entry) =>
        match ParseLog(lines[1..])
        case Failure(err) => Failure(err)
        case Success(rest) => Success((if entry.Some? then [entry.value] else []) + rest)
  }

  /** An integer's decimal text holds no `;`. */
  lemma NoSemicolonInNumber(n: int)
    ensures ';' !in IntToString(n)
  {
  }

  /** The seven fields `serialize` joins. */
  function Fields(e: LogEntry): seq<string>
  {
    [Tag, e.nome, e.side.Name(), IntToString(e.ox), IntToString(e.oy), IntToString(e.dx), IntToString(e.dy)]
  }

  /** Splitting a serialized entry whose name holds no `;` gives back its seven fields. */
  lemma SplitOfSerialize(e: LogEntry)
    requires ';' !in e.nome
    ensures JavaSplit(Serialize(e), ';') == Fields(e)
  {
    NoSemicolonInNumber(e.ox);
    NoSemicolonInNumber(e.oy);
    NoSemicolonInNumber(e.dx);
    NoSemicolonInNumber(e.dy);
    assert ';' !in Tag;
    assert ';' !in e.side.Name();
    SplitOfJoin(Fields(e), ';');
  }

  /** A serialized entry whose name holds no `;` parses back to that entry, the empty name included. */
  lemma ParseOfSerialize(e: LogEntry)
    requires ';' !in e.nome
    ensures ParseLine(Serialize(e)) == Success(Some(e))
  {
    SplitOfSerialize(e);
    var parts := JavaSplit(Serialize(e), ';');
    assert |parts| == 7 && parts[0] == Tag && parts[1] == e.nome;
    assert PlayerSide.ValueOf(parts[2]) == Some(e.side);
    IntRoundTrip(e.ox);
    IntRoundTrip(e.oy);
    IntRoundTrip(e.dx);
    IntRoundTrip(e.dy);
    assert ParseInt(parts[3]) == Some(e.ox) && ParseInt(parts[4]) == Some(e.oy);
    assert ParseInt(parts[5]) == Some(e.dx) && ParseInt(parts[6]) == Some(e.dy);
  }

  /** A line with fewer or more than seven fields, or another first field, is skipped. */
  lemma OtherLinesSkipped(line: string)
    requires |JavaSplit(line, ';')| != 7 || JavaSplit(line, ';')[0] != Tag
    ensures ParseLine(line) == Success(None)
  {
  }

  /**
   * A seven-field line headed by the tag is never skipped: its side must be
   * a constant name and its four coordinates integers, checked in that
   * order, and the first one that fails is the exception, carrying its text.
   */
  lemma AcceptedLineOutcomes(line: string)
    requires |JavaSplit(line, ';')| == 7 && JavaSplit(line, ';')[0] == Tag
    ensures var parts := JavaSplit(line, ';');
      PlayerSide.ValueOf(parts[2]).None? ==> ParseLine(line) == Failure(UnknownSide(parts[2]))
    ensures var parts := JavaSplit(line, ';');
      PlayerSide.ValueOf(parts[2]).Some? && ParseInt(parts[3]).None? ==> ParseLine(line) == Failure(BadNumber(parts[3]))
    ensures var parts := JavaSplit(line, ';');
      PlayerSide.ValueOf(parts[2]).Some? && ParseInt(parts[3]).Some? && ParseInt(parts[4]).None?
      ==> ParseLine(line) == Failure(BadNumber(parts[4]))
    ensures var parts := JavaSplit(line, ';');
      PlayerSide.ValueOf(parts[2]).Some? && ParseInt(parts[3]).Some? && ParseInt(parts[4]).Some? && ParseInt(parts[5]).None?
      ==> ParseLine(line) == Failure(BadNumber(parts[5]))
    ensures var parts := JavaSplit(line, ';');
      PlayerSide.ValueOf(parts[2]).Some? && ParseInt(parts[3]).Some? && ParseInt(parts[4]).Some?
      && ParseInt(parts[5]).Some? && ParseInt(parts[6]).None?
      ==> ParseLine(line) == Failure(BadNumber(parts[6]))
    ensures ParseLine(line) != Success(None)
  {
  }

  /** A log whose first line parses to an entry reads as that entry followed by the rest. */
  lemma ParseLogCons(lines: seq<string>, e: LogEntry, rest: seq<LogEntry>)
    requires |lines| > 0 && ParseLine(lines[0]) == Success(Some(e)) && ParseLog(lines[1..]) == Success(rest)
    ensures ParseLog(lines) == Success([e] + rest)
  {
  }

  /** The lines `store` writes for the entries, one per entry, in order. */
  function StoredLines(es: seq<LogEntry>): seq<string>
  {
    if |es| == 0 then [] else [Serialize(es[0])] + StoredLines(es[1..])
  }

  lemma StoredLinesCons(es: seq<LogEntry>)
    requires |es| > 0
    ensures StoredLines(es) == [Serialize(es[0])] + StoredLines(es[1..])
  {
  }

  /** A log written line by line by `store` reads back as the same entries in the same order. */
  lemma {:induction false} ParseLogOfStored(es: seq<LogEntry>)
    requires forall i | 0 <= i < |es| :: ';' !in es[i].nome
    ensures ParseLog(StoredLines(es)) == Success(es)
  {
    if |es| > 0 {
      ParseOfSerialize(es[0]);
      ParseLogOfStored(es[1..]);
      StoredLinesCons(es);
      ParseLogCons([Serialize(es[0])] + StoredLines(es[1..]), es[0], es[1..]);
      assert es == [es[0]] + es[1..];
    }
  }
}
