# Selva board-game core, modelled in Dafny

This project models the rule engine of `framework-tabuleiro`, a Java
framework for a Jungle-style ("Selva") board game, and the stateful
pipeline around it:

- the board (`TabletopProduct`): a `Peca` grid indexed `[y][x]` plus a
  list of pieces, with `movePiece`, `removePiece`, `restoreState` and
  `deepClone`;
- the terrain classifier of `SelvaCellCreator`, `CellType.lookup` and the
  predicates of `CellRules`;
- the movement strategies (basic, elephant, rat, lion, tiger), the piece
  states `NormalState` and `BloqueadaState`, and `Peca.mover`;
- the validator chain (bounds, own-den entry, capture);
- the command pipeline: `MoverPecaCommand`, `CommandInvoker`, the
  `;`-separated log line and its loader `CommandLogManager.loadCommands`,
  and `BoardMemento`;
- `GameFacade.executeMove` and `replay`, the `TurnManager` singleton, the
  game lifecycle states and the controller's `move` branch with its
  victory rule;
- the piece factory, the observer subject and the flyweight cache.

Pure code (classifier, rules, log format, validator chain, lifecycle) is
written as datatypes, functions and lemmas. Code that changes objects
(board, pieces, commands, invoker, facade, controller, turn manager,
subject, flyweight cache) is written as classes whose methods state their
new state in terms of specification functions on values: the board's grid
is an `array2` whose entries are read back as a `seq<seq<Peca?>>` by
`Rows()`.

Facts about the code that the model keeps as written, and proves:

- `Position(a, b)` sets `row = a`, `col = b`. The constructor places each
  piece at `pieceGrid[row][col]`, `movePiece` writes `[dy][dx]` and stores
  `Position(dx, dy)`, and `removePiece` checks `getPieceAt(row, col)`
  (which reads `[col][row]`) but clears `[row][col]`. Off the diagonal the
  cell a removal clears is the transposed one
  (`Builder.RemoveClearsTransposedCell`).
- A strategy calls `movePiece` before `removePiece(alvo)`, so a captured
  piece whose cell the mover now holds is never removed from `pieces`
  (`Builder.CapturedStaysListed`, `Strategy.CaptureKeepsListed`).
- `GameFacade.executeMove` moves a newly built lion piece that is never in
  the grid, so `movePiece` always fails on that path; only the capture
  step can change the board (`Facade.GameFacade.ExecuteMove`,
  `Facade.FacadeCaptureMissesTarget`).
- `CommandInvoker` never removes a command from its history.

Integers are unbounded except where the source parses or prints them:
`Int32` is Java's `int`, and `Integer.parseInt` rejects text outside its
range. Files are sequences of lines. What an observer does on `update` is
outside the model; each call is recorded in the subject's ghost trace
`delivered`.

`Position` is modelled as the datatype `Position(row, col)`, and
`PlayerSide` as the datatype `White | Black` with `name()` and `valueOf`.

## Model

| member | source | states |
|---|---|---|
| Context.PlayerSide.Name | framework-tabuleiro/src/command/MoverPecaCommand.java:44 | a side's name is "WHITE" or "BLACK" |
| Context.PlayerSide.ValueOf | framework-tabuleiro/src/command/CommandLogManager.java:37 | `valueOf` succeeds exactly on "WHITE" and "BLACK" and then inverts `name()`; any other text is the exception case |
| Context.Peca.constructor | framework-tabuleiro/src/context/Peca.java:22-31 | a new piece has the given name, side, strategy and position and starts in NormalState |
| Context.Peca.Unplaced | framework-tabuleiro/src/abstractfactory/SelvaPieceFactoryImpl.java:17 | the three-argument construction the factories use: given name, side and strategy, NormalState |
| Context.Peca.SetPosition | framework-tabuleiro/src/context/Peca.java:45-47 | replaces the position and nothing else |
| Context.Peca.SetMovimentoStrategy | framework-tabuleiro/src/context/Peca.java:53-55 | replaces the strategy and nothing else |
| Context.Peca.SetState | framework-tabuleiro/src/context/Peca.java:61-63 | replaces the state and nothing else |
| Context.Peca.DeepClone | framework-tabuleiro/src/context/Peca.java:75-82 | a fresh piece with the same name, side, shared strategy and an equal position, always in NormalState |
| Enums.Lookup | framework-tabuleiro/src/enums/CellType.java:12-17 | DEN_WHITE iff row 3, col 0; DEN_BLACK iff row 3, col 8; never water or a trap |
| Rules.PodeEntrar | framework-tabuleiro/src/rules/CellRules.java:15-23 | false iff the cell is the piece's own den; the enemy den is allowed; false implies `isToca` |
| Rules.EstaEmArmadilhaInimiga | framework-tabuleiro/src/rules/CellRules.java:29-35 | true exactly on a trap that is not the piece's own: never off a trap, never on its own, always on the other side's |
| Rules.TerrainPredicatesExclusive | framework-tabuleiro/src/rules/CellRules.java:40-56 | water, den and trap exclude each other and together cover every non-land cell |
| FactoryMethod.MatchesIsMembership | framework-tabuleiro/src/factorymethod/SelvaCellCreator.java:49-53 | the table search loop matches exactly when `(y, x)` is an entry |
| FactoryMethod.WaterTable | framework-tabuleiro/src/factorymethod/SelvaCellCreator.java:45-48 | the water table holds exactly y in {3,4,5} with x in {1,2,4,5} |
| FactoryMethod.TrapTables | framework-tabuleiro/src/factorymethod/SelvaCellCreator.java:58-69 | the entries of the white and black trap tables, written out |
| FactoryMethod.DetermineCellTypeIsLayout | framework-tabuleiro/src/factorymethod/SelvaCellCreator.java:42-72 | the classifier, with x = row and y = col, agrees everywhere with an independent region description of the layout |
| FactoryMethod.WaterRegion | framework-tabuleiro/src/factorymethod/SelvaCellCreator.java:45-53 | WATER exactly on y in {3,4,5}, x in {1,2,4,5} |
| FactoryMethod.DensExactly | framework-tabuleiro/src/factorymethod/SelvaCellCreator.java:55-56 | DEN_WHITE exactly at x 3, y 0 and DEN_BLACK exactly at x 3, y 8 |
| FactoryMethod.WhiteTrapShadowedByWater | framework-tabuleiro/src/factorymethod/SelvaCellCreator.java:46-63 | the entry {3,1} is in the white-trap table but classified as water |
| FactoryMethod.WhiteTrapsOnlyTwo | framework-tabuleiro/src/factorymethod/SelvaCellCreator.java:58-63 | TRAP_WHITE occurs exactly at x 0 with y 2 or 4 |
| FactoryMethod.NoBlackTrapOnSevenWideBoard | framework-tabuleiro/src/factorymethod/SelvaCellCreator.java:64-69 | no TRAP_BLACK when x < 7 |
| FactoryMethod.LandElsewhere | framework-tabuleiro/src/factorymethod/SelvaCellCreator.java:70-71 | a position in no table is LAND |
| FactoryMethod.FactoryMethod | framework-tabuleiro/src/factorymethod/SelvaCellCreator.java:19-37 | the created cell has the given position and the classified type |
| FactoryMethod.LookupAgreesOnDens | framework-tabuleiro/src/enums/CellType.java:12-17 | `lookup` and the classifier place the two dens on the same positions |
| FactoryMethod.SelvaCells | framework-tabuleiro/src/builder/SelvaTabletopBuilder.java:16-23 | the Selva cell grid has `height` rows of `width` cells, `cells[y][x]` being the cell made for `Position(x, y)` |
| Lists.RemoveFirst | framework-tabuleiro/src/builder/TabletopProduct.java:70 | `List.remove`: an absent element leaves the list as it is; otherwise the list is one shorter, the elements before the first occurrence stay in place and the ones after it move down by one |
| Lists.RemoveFirstCount | framework-tabuleiro/src/builder/TabletopProduct.java:70 | removal of a present element takes exactly one copy (multiset) |
| Lists.RemoveFirstNoDups | framework-tabuleiro/src/observer/TabletopSubject.java:15-17 | removal from a duplicate-free list leaves no copy of the element |
| Builder.Moved | framework-tabuleiro/src/builder/TabletopProduct.java:59-60 | after a move the piece is at (dx, dy), the origin is empty unless it is the destination, every other cell is unchanged |
| Builder.MovePreservesInjective | framework-tabuleiro/src/builder/TabletopProduct.java:56-63 | a move keeps every piece on at most one cell and leaves an overwritten occupant on none |
| Builder.RemoveClearsTransposedCell | framework-tabuleiro/src/builder/TabletopProduct.java:65-69 | off the diagonal, a removal whose guard passes clears the transposed cell and the piece stays on the grid |
| Builder.OccupantsMembership | framework-tabuleiro/src/builder/TabletopProduct.java:83-90 | the row-major occupant list holds exactly the pieces on the grid |
| Builder.LastPlaced | framework-tabuleiro/src/builder/TabletopProduct.java:35-38 | the entry the constructor's loop leaves at [row][col] is a listed piece with that position, and null iff no listed piece has it |
| Builder.LastPlacedIsOwn | framework-tabuleiro/src/builder/TabletopProduct.java:35-38 | with distinct positions every piece lands at [row][col] of its own position |
| Builder.SamePositionLastWins | framework-tabuleiro/src/builder/TabletopProduct.java:35-38 | two listed pieces at one position share its cell, the later one remaining, and all other cells stay empty |
| Builder.RemoveMissesConstructedPiece | framework-tabuleiro/src/builder/TabletopProduct.java:65-68 | on a freshly built board, `removePiece` of a piece off the diagonal fails its guard |
| Builder.TransposedIndex | framework-tabuleiro/src/builder/TabletopProduct.java:56-61 | the cell a move writes for (dx, dy) is the one the constructor uses for a piece at Position(dx, dy) only on the diagonal |
| Builder.CapturedStaysListed | framework-tabuleiro/src/strategy/MovimentoBasicoStrategy.java:21-22 | when the mover took the target's cell, the capture's removal fails: the grid is the moved grid and the list is unchanged |
| Builder.TabletopProduct.constructor | framework-tabuleiro/src/builder/TabletopProduct.java:23-39 | a fresh grid in which each cell holds the last listed piece at that (row, col) |
| Builder.TabletopProduct.IsWithinBounds | framework-tabuleiro/src/builder/TabletopProduct.java:43-45 | true iff (x, y) indexes the grid |
| Builder.TabletopProduct.GetCellType | framework-tabuleiro/src/builder/TabletopProduct.java:47-49 | the type of `cells[y][x]`, which on a Selva board is the classifier's type for Position(x, y) |
| Builder.TabletopProduct.GetCellAt | framework-tabuleiro/src/builder/TabletopProduct.java:131-133 | `cells[y][x]`, which on a Selva board is the factory method's cell for Position(x, y) |
| Builder.TabletopProduct.GetPieceAt | framework-tabuleiro/src/builder/TabletopProduct.java:51-54 | never fails: null off the board, otherwise the grid entry [y][x] |
| Builder.TabletopProduct.MovePiece | framework-tabuleiro/src/builder/TabletopProduct.java:56-63 | succeeds iff that very piece is at (ox, oy) and (dx, dy) is on the board; then the grid is the moved grid, the position is (dx, dy), the list unchanged; otherwise nothing changes |
| Builder.TabletopProduct.RemovePiece | framework-tabuleiro/src/builder/TabletopProduct.java:65-71 | without the identity guard nothing changes and the answer is false; with it [row][col] is cleared and the first occurrence leaves the list |
| Builder.TabletopProduct.RestoreState | framework-tabuleiro/src/builder/TabletopProduct.java:73-92 | every cell holds the source board's object for that cell and the list is its row-major occupant list |
| Builder.TabletopProduct.CopyGridFrom | framework-tabuleiro/src/builder/TabletopProduct.java:75-79 | the first loop copies every cell, also when the source is this board |
| Builder.TabletopProduct.CollectFrom | framework-tabuleiro/src/builder/TabletopProduct.java:82-90 | the second loop rebuilds the list in row-major order |
| Builder.TabletopProduct.CollectRow | framework-tabuleiro/src/builder/TabletopProduct.java:84-89 | one row's occupants are appended to the list, left to right |
| Builder.TabletopProduct.DeepClone | framework-tabuleiro/src/builder/TabletopProduct.java:97-117 | a fresh board of the same size with the same cells and a fresh, distinct clone of each piece in order, placed by its position |
| Strategy.MoverBasico | framework-tabuleiro/src/strategy/MovimentoBasicoStrategy.java:10-24 | true iff the basic guards pass; then the shared capture, otherwise nothing changes |
| Strategy.MoverElefante | framework-tabuleiro/src/strategy/ElefanteMovimentoStrategy.java:10-23 | true iff the basic guards pass and the target is not a "Rato"; then the capture, otherwise nothing changes |
| Strategy.MoverRato | framework-tabuleiro/src/strategy/RatoMovimentoStrategy.java:10-30 | true iff the rat's guards pass; then the capture, otherwise nothing changes |
| Strategy.Jump | framework-tabuleiro/src/strategy/LeaoMovimentoStrategy.java:26-33 | true iff the target is not of the mover's side; then the capture, otherwise nothing changes |
| Strategy.MoverLeao | framework-tabuleiro/src/strategy/LeaoMovimentoStrategy.java:9-20 | true iff the lion's rule accepts (jump on a shared axis, otherwise the elephant's rule); then the capture |
| Strategy.MoverTigre | framework-tabuleiro/src/strategy/TigreMovimentoStrategy.java:9-24 | true iff the tiger's rule accepts; the board is untouched and an accepted move is broadcast once |
| Strategy.ElefanteIsBasicoWithoutRato | framework-tabuleiro/src/strategy/ElefanteMovimentoStrategy.java:14-19 | the elephant accepts iff the basic rule does and the target is not named "Rato" |
| Strategy.BasicoRejections | framework-tabuleiro/src/strategy/MovimentoBasicoStrategy.java:14-20 | off-board, non-unit, into-water and own-piece moves are rejected |
| Strategy.RatoRule | framework-tabuleiro/src/strategy/RatoMovimentoStrategy.java:14-25 | a unit step on the board onto an empty cell is accepted, water included; the only extra rejection is water to land onto an "Elefante" |
| Strategy.RiverJumpOnAxis | framework-tabuleiro/src/strategy/LeaoMovimentoStrategy.java:13-24 | on a shared axis `abs(ox - dx + oy - dy) > 1` is the single-axis distance exceeding one |
| Strategy.LeaoJumpOffBoard | framework-tabuleiro/src/strategy/LeaoMovimentoStrategy.java:26-32 | a straight jump off the board is accepted though `movePiece` can do nothing |
| Strategy.LeaoOtherwiseElefante | framework-tabuleiro/src/strategy/LeaoMovimentoStrategy.java:13-19 | a non-jump lion move is decided by the elephant's rule; the zero move and every non-straight move are rejected |
| Strategy.TigreRule | framework-tabuleiro/src/strategy/TigreMovimentoStrategy.java:26-34 | accepted iff the move is neither zero nor a unit diagonal |
| Strategy.CaptureKeepsListed | framework-tabuleiro/src/strategy/ElefanteMovimentoStrategy.java:20-21 | after a successful move onto an enemy the captured piece is on no cell yet still listed |
| PieceState.StrategyMover | framework-tabuleiro/src/state/NormalState.java:19-22 | the answer of the piece's strategy; board changes only for strategies that move, a broadcast only for the tiger's |
| PieceState.NormalStateMover | framework-tabuleiro/src/state/NormalState.java:10-23 | false and nothing changed without a strategy, otherwise exactly the strategy's call |
| PieceState.BloqueadaStateMover | framework-tabuleiro/src/state/BloqueadaState.java:10-16 | always false, whatever the arguments |
| PieceState.PecaMover | framework-tabuleiro/src/context/Peca.java:68-73 | answers what the piece's state answers, with the same effects |
| PieceState.BlockedNeverMoves | framework-tabuleiro/src/state/BloqueadaState.java:10-16 | a blocked piece, or one without strategy, is never accepted |
| PieceState.NullStrategyNeverMoves | framework-tabuleiro/src/abstractfactory/NullPiece.java:15-23 | the NullPiece strategy never accepts |
| Responsability.ValidateIffAllChecks | framework-tabuleiro/src/responsability/MoveValidator.java:10-14 | a chain answers true iff every link's check passes |
| Responsability.ShortCircuit | framework-tabuleiro/src/responsability/MoveValidator.java:12-13 | a failing check ends the chain false; a passing last link answers true; otherwise the rest decides |
| Responsability.BoundsFirst | framework-tabuleiro/src/responsability/BoundsValidator.java:8-10 | at the head, an off-board destination is rejected before any later link runs |
| Responsability.CapturePassesOffBoard | framework-tabuleiro/src/responsability/CaptureValidator.java:10-14 | the capture check passes on an empty or off-board destination |
| Responsability.StandardChainMeaning | framework-tabuleiro/src/responsability/CellEntryValidator.java:9-11 | bounds, own-den entry, capture: accepts exactly on-board moves not into the own den and not onto an own piece |
| AbstractFactory.CreateLeao | framework-tabuleiro/src/abstractfactory/SelvaPieceFactoryImpl.java:16-18 | a fresh "Leão" of the side with the lion's strategy |
| AbstractFactory.CreateTigre | framework-tabuleiro/src/abstractfactory/SelvaPieceFactoryImpl.java:21-23 | a fresh "Tigre" of the side with the tiger's strategy |
| AbstractFactory.CreateElefante | framework-tabuleiro/src/abstractfactory/SelvaPieceFactoryImpl.java:26-28 | a fresh "Elefante" of the side with the elephant's strategy |
| AbstractFactory.NewNullPiece | framework-tabuleiro/src/abstractfactory/NullPiece.java:14-29 | a fresh white "Peça Inválida" with the never-moving strategy |
| AbstractFactory.Create | framework-tabuleiro/src/abstractfactory/SelvaPieceFactory.java:22-29 | the piece of the branch the lower-cased name selects, NullPiece otherwise |
| AbstractFactory.KindIgnoresCase | framework-tabuleiro/src/abstractfactory/SelvaPieceFactory.java:23 | a name and its lower-cased form select the same branch |
| AbstractFactory.CreateRoundTrip | framework-tabuleiro/src/abstractfactory/SelvaPieceFactory.java:22-29 | a created piece's name selects the same kind, name, strategy and side again |
| AbstractFactory.KindNames | framework-tabuleiro/src/abstractfactory/SelvaPieceFactory.java:24-27 | "Leão", "Tigre", "Elefante" select their creators; "Peça Inválida" selects none |
| AbstractFactory.UpperCaseNames | framework-tabuleiro/src/abstractfactory/SelvaPieceFactory.java:23-26 | upper-case spellings are matched, Latin-1 capitals included |
| AbstractFactory.OtherSpeciesAreNull | framework-tabuleiro/src/abstractfactory/SelvaPieceFactory.java:27 | the other species' names give a NullPiece |
| JavaText.IntToString | framework-tabuleiro/src/command/MoverPecaCommand.java:45-48 | `Integer.toString`: a leading minus exactly for negatives, then digits |
| JavaText.ParseInt | framework-tabuleiro/src/command/CommandLogManager.java:38-41 | `Integer.parseInt`: accepted iff the text is an optional `-`/`+` and one or more digits whose signed value fits in `int`, and then that signed value |
| JavaText.ParseIntEdges | framework-tabuleiro/src/command/CommandLogManager.java:38-41 | the empty text, a bare sign and a stray character are rejected; `+7` and `-12` are accepted |
| JavaText.IntRoundTrip | framework-tabuleiro/src/command/CommandLogManager.java:38-41 | parsing the printed text of any `int` gives it back |
| JavaText.SplitOfJoin | framework-tabuleiro/src/command/CommandLogManager.java:34 | `split(";")` of a `join` of separator-free parts, the last non-empty, gives the parts back |
| JavaText.LowerChar | framework-tabuleiro/src/abstractfactory/SelvaPieceFactory.java:23 | A to Z and the Latin-1 capitals U+00C0 to U+00DE but U+00D7 gain 32 in code point; every other character is left alone; the result is never such a capital |
| JavaText.ToLower | framework-tabuleiro/src/abstractfactory/SelvaPieceFactory.java:23 | `toLowerCase` character by character, same length |
| JavaText.ToLowerIdempotent | framework-tabuleiro/src/abstractfactory/SelvaPieceFactory.java:23 | lower-casing twice is lower-casing once |
| LogFormat.ParseOfSerialize | framework-tabuleiro/src/command/CommandLogManager.java:34-41 | a serialized entry whose name has no ';' parses back to that entry |
| LogFormat.OtherLinesSkipped | framework-tabuleiro/src/command/CommandLogManager.java:35 | a line without seven fields or the command tag is skipped |
| LogFormat.AcceptedLineOutcomes | framework-tabuleiro/src/command/CommandLogManager.java:35-41 | a seven-field tagged line is never skipped: an unknown side is `UnknownSide(text)`, else the first non-integer coordinate in order is `BadNumber(text)` |
| LogFormat.ParseLogOfStored | framework-tabuleiro/src/command/CommandLogManager.java:30-48 | a log written by `store` reads back as the same entries in order |
| Observer.Broadcast | framework-tabuleiro/src/observer/TabletopSubject.java:19-24 | one `update(data)` per observer, in list order |
| Observer.Attached | framework-tabuleiro/src/observer/TabletopSubject.java:9-13 | the old observers stay first and in order; a non-null `o` is afterwards a member and nothing else joins; the list grows by one exactly when `o` is non-null and new |
| Observer.Detached | framework-tabuleiro/src/observer/TabletopSubject.java:15-17 | a registered observer loses exactly one copy (length one less, multiset minus `o`); a null or unregistered one leaves the list unchanged |
| Observer.AttachKeepsNoDups | framework-tabuleiro/src/observer/TabletopSubject.java:9-13 | attaching keeps the list duplicate-free and the earlier observers first |
| Observer.DetachRemoves | framework-tabuleiro/src/observer/TabletopSubject.java:15-17 | on a duplicate-free list the observer is gone and all others stay |
| Observer.NotifiedExactlyOnce | framework-tabuleiro/src/observer/TabletopSubject.java:19-24 | each registered observer gets a notification exactly once |
| Observer.TabletopSubject.constructor | framework-tabuleiro/src/observer/TabletopConcreteSubject.java:6-8 | no observers, the initial state text, nothing delivered |
| Observer.TabletopSubject.SetState | framework-tabuleiro/src/observer/TabletopConcreteSubject.java:15-18 | keeps the new text and broadcasts it |
| Observer.TabletopSubject.Attach | framework-tabuleiro/src/observer/TabletopSubject.java:9-13 | the list becomes `Attached` of the old list |
| Observer.TabletopSubject.Detach | framework-tabuleiro/src/observer/TabletopSubject.java:15-17 | the list becomes `Detached` of the old list |
| Observer.TabletopSubject.NotifyObservers | framework-tabuleiro/src/observer/TabletopSubject.java:19-24 | the broadcast to the observers present at the call is appended to the trace |
| Memento.BoardMemento.constructor | framework-tabuleiro/src/memento/BoardMemento.java:11-13 | the snapshot is a fresh deep clone of the board, its own grid and fresh pieces |
| Memento.MoveAfterSnapshot | framework-tabuleiro/src/memento/BoardMemento.java:11-13 | a move on the live board leaves the snapshot's grid, list and piece positions unchanged |
| Command.LogFile.Append | framework-tabuleiro/src/command/MoverPecaCommand.java:54-55 | one line appended at the end |
| Command.MoverPecaCommand.constructor | framework-tabuleiro/src/command/MoverPecaCommand.java:18-29 | the fields, fixed for the command's life |
| Command.MoverPecaCommand.Serialize | framework-tabuleiro/src/command/MoverPecaCommand.java:40-50 | the line the loader reads back as this command's fields, when the name has no ';' |
| Command.MoverPecaCommand.Execute | framework-tabuleiro/src/command/MoverPecaCommand.java:32-37 | the piece's own answer and effects, and the serialized line logged iff accepted |
| Command.MoverPecaCommand.Store | framework-tabuleiro/src/command/MoverPecaCommand.java:53-59 | appends this command's serialization |
| Command.MoverPecaCommand.SaveMemento | framework-tabuleiro/src/command/MoverPecaCommand.java:61-65 | a fresh snapshot of the board |
| Command.MoverPecaCommand.Restore | framework-tabuleiro/src/command/MoverPecaCommand.java:67-72 | the board takes the snapshot's cells and occupants, then the restore message is broadcast |
| Command.RestoreThenMove | framework-tabuleiro/src/builder/TabletopProduct.java:73-90 | after a restore the live board holds the snapshot's own pieces: moving the one at (x, y) moves a piece the snapshot lists, whose grid still shows it at (x, y) |
| Command.CommandInvoker.constructor | framework-tabuleiro/src/command/CommandInvoker.java:6 | an empty history |
| Command.CommandInvoker.ExecuteCommand | framework-tabuleiro/src/command/CommandInvoker.java:8-14 | the command's answer; the history grows by that command iff it is true, and never shrinks |
| Command.CommandInvoker.GetLastCommand | framework-tabuleiro/src/command/CommandInvoker.java:16-21 | null iff the history is empty, else its top, the history untouched |
| Command.LoadCommands | framework-tabuleiro/src/command/CommandLogManager.java:22-52 | fails iff the log parse fails, with that error; otherwise one fresh command per accepted line, in order, rebuilt with a factory piece |
| Command.Rebuild | framework-tabuleiro/src/command/CommandLogManager.java:44-45 | a fresh command with the entry's coordinates, the given board, subject and log, and a fresh factory piece for the entry's name and side |
| Command.RebuiltKind | framework-tabuleiro/src/command/CommandLogManager.java:44 | a reloaded lion, tiger or elephant keeps name and side; other names reload as a NullPiece |
| Facade.GameFacade.constructor | framework-tabuleiro/src/facade/GameFacade.java:32-37 | no board, empty history, a subject in state "Inicial" with one observer |
| Facade.GameFacade.SetupBoard | framework-tabuleiro/src/facade/GameFacade.java:58-63 | the built board is kept and "Jogo Selva configurado" is broadcast |
| Facade.GameFacade.DivideBoard | framework-tabuleiro/src/facade/GameFacade.java:67-72 | the division message is broadcast |
| Facade.GameFacade.ExecuteMove | framework-tabuleiro/src/facade/GameFacade.java:41-48 | accepted iff the lion's rule accepts; the board changes only by the capture's clearing; logged and pushed iff accepted |
| Facade.GameFacade.NewLeaoCommand | framework-tabuleiro/src/facade/GameFacade.java:45-46 | a fresh command for a fresh lion piece of the given name and side, standing at the origin, on the facade's board, subject and log |
| Facade.GameFacade.Replay | framework-tabuleiro/src/facade/GameFacade.java:82-89 | nothing on an empty history; otherwise the top command runs again and is pushed again iff it succeeds; only the top command's grid, piece list, piece position, deliveries and log lines may change |
| Facade.ClearOnlyEmpties | framework-tabuleiro/src/builder/TabletopProduct.java:69 | a clearing only empties its one cell |
| Facade.FacadeCaptureMissesTarget | framework-tabuleiro/src/facade/GameFacade.java:45-47 | off the diagonal the facade's capture leaves the target on its cell and empties the transposed cell |
| Singleton.Other | framework-tabuleiro/src/singleton/TurnManager.java:30 | the other side differs |
| Singleton.SwitchTwice | framework-tabuleiro/src/singleton/TurnManager.java:29-32 | two switches are the identity |
| Singleton.AfterSwitchesParity | framework-tabuleiro/src/singleton/TurnManager.java:29-32 | after n switches the side is the start side iff n is even |
| Singleton.TurnManager.constructor | framework-tabuleiro/src/singleton/TurnManager.java:11-13 | White starts |
| Singleton.TurnManager.SwitchTurn | framework-tabuleiro/src/singleton/TurnManager.java:29-32 | the other side's turn |
| Singleton.CurrentSideIsCurrentPlayer | framework-tabuleiro/src/controller/GameController.java:52-55 | the side `getCurrentSide` returns always passes `isCurrentPlayer`, and only that side does, so the controller's "not your turn" message is never printed |
| Singleton.TurnManager.Reset | framework-tabuleiro/src/singleton/TurnManager.java:40-43 | White's turn whatever came before |
| Singleton.TurnRegistry.constructor | framework-tabuleiro/src/singleton/TurnManager.java:7 | no instance yet |
| Singleton.TurnRegistry.GetInstance | framework-tabuleiro/src/singleton/TurnManager.java:16-21 | the first call makes a manager with White to move; every call returns that object |
| Lifecycle.StepForward | framework-tabuleiro/src/state/NotStartedState.java:7-10 | each handler keeps the state or moves it one stage on, and moves exactly when it runs `doStart` or `doEnd` |
| Lifecycle.OnlyExits | framework-tabuleiro/src/state/InProgressState.java:6-8 | `start` is the only way out of NotStarted, `end` out of InProgress; Ended stays; `play` changes nothing |
| Lifecycle.RunNeverGoesBack | framework-tabuleiro/src/state/EndedState.java:6-8 | a sequence of events never goes back a stage, and Ended is final |
| Lifecycle.InProgressAfter | framework-tabuleiro/src/state/NotStartedState.java:7-10 | from NotStarted, in progress iff a `start` came and no `end` after the first one |
| Lifecycle.FromInProgress | framework-tabuleiro/src/state/InProgressState.java:8 | from InProgress, still in progress iff no `end` comes, and otherwise Ended |
| Controller.ClassifyStart | framework-tabuleiro/src/controller/GameController.java:41-42 | a line takes the `start` branch iff it lower-cases to "start" |
| Controller.ClassifyEnd | framework-tabuleiro/src/controller/GameController.java:41-78 | a line takes the `end` branch iff it lower-cases to "end": no earlier branch catches such a line |
| Controller.ClassifyCapitalMove | framework-tabuleiro/src/controller/GameController.java:43 | "move" is case-sensitive: "Move 1 2 1 3" takes no branch |
| Controller.MoveLinesAreMoves | framework-tabuleiro/src/controller/GameController.java:41-43 | a line starting "move" always takes the move branch |
| Controller.SelvaVictory | framework-tabuleiro/src/controller/GameController.java:109-117 | on the Selva board White wins at (3, 8) and Black at (3, 0), nowhere else |
| Controller.GameController.constructor | framework-tabuleiro/src/controller/GameController.java:22-27 | the singleton turn manager, NotStarted, not over |
| Controller.GameController.DoEnd | framework-tabuleiro/src/controller/GameController.java:100-103 | the game is over |
| Controller.GameController.DoStart | framework-tabuleiro/src/controller/GameController.java:84-94 | the facade gets the 7-by-9 Selva board; setup then division are broadcast |
| Controller.GameController.Start | framework-tabuleiro/src/state/NotStartedState.java:7-10 | the lifecycle's next state; the start-up runs only from NotStarted: then the board is Selva, the subject's state is the divided message and both messages are delivered; otherwise board, subject state and deliveries are as before |
| Controller.GameController.End | framework-tabuleiro/src/state/InProgressState.java:8 | the lifecycle's next state; `gameOver` set only from InProgress |
| Controller.GameController.CheckVictory | framework-tabuleiro/src/controller/GameController.java:109-117 | a move onto the other side's den ends the game, otherwise nothing changes |
| Controller.GameController.MoveBranch | framework-tabuleiro/src/controller/GameController.java:43-70 | a malformed line changes nothing (turn, lifecycle, history, board, log, deliveries); otherwise the lion's answer, history growth iff moved, the win rule, the turn passes iff moved and not over, the board changes only by the capture step, nothing is delivered, and the log gains the move's line, under the origin occupant's name, iff moved |
| Flyweight.FlyweightCreator.constructor | framework-tabuleiro/src/flyweight/TabletopFlyweightConcreteCreator.java:7-9 | an empty cache |
| Flyweight.FlyweightCreator.GetFlyweight | framework-tabuleiro/src/flyweight/TabletopFlyweightConcreteCreator.java:12-17 | a miss adds exactly one fresh product for the key, a hit changes nothing; the answer is the cached product for the key |
| Flyweight.FlyweightCreator.ListFlyweights | framework-tabuleiro/src/flyweight/TabletopFlyweightConcreteCreator.java:20-22 | every key exactly once |
| Flyweight.SameObjectTwice | framework-tabuleiro/src/flyweight/TabletopFlyweightConcreteCreator.java:12-17 | two lookups of a key, with others between, give the same object |

## Left out

- Console I/O: the `run` loop, `printBoard`, `promptForPieceName`'s output and every message printed; the move branch is a method over one line.
- Files: `command.log` is a `LogFile` object holding its lines; `store`'s `IOException` cannot happen in the model.
- `GameFacade.undo` calls `commandInvoker.undo()`, which `CommandInvoker` does not define; it is not modelled, and the controller's `undo` line only classifies as such.
- The builders, the director, the composite and leaf tiles, the template-method dividers and the flyweight rendering: `setupSelva` is modelled by `SetupBoard` taking the built board, and `divideBoard` by its announcement; the tiles the divider adds are left out.
- The species subclasses and the single-type cell creators, which only supply names and constants; `TabletopCreator`, `TabletopConcreteCreator`, `TabletopConcreteProduct` and `Main.java`, which do not compile.
- Context.Peca.Unplaced: the three-argument `Peca` constructor the factories call does not exist; the model gives such a piece position (0, 0). The builder path that reads this position is not modelled: `SelvaTabletopBuilder.buildPieces` (SelvaTabletopBuilder.java:45-46) and `TabletopBuilder.getResult` (TabletopBuilder.java:43-44) feed the `TabletopProduct` constructor, which places each piece by its position; `doStart` takes the built board as a parameter instead. Under this choice the builder would put both start-up pieces on cell [0][0], the black lion on top (`Builder.SamePositionLastWins`).
- Strategy.MoverTigre: the source's `mover(Object, …)` does not implement the interface; it is modelled as the tiger's strategy reached through dispatch, with the piece unused.
- AbstractFactory.NewNullPiece: its anonymous strategy has the same non-compiling signature; it is modelled as a strategy that always answers false.
- `TrapCell` has no `clone`; `deepClone` copies cells as values.
- The `subject` argument of the board strategies is unused by them.
- Strategy.Abs: `Math.abs` and coordinate arithmetic are on unbounded integers, so the overflow at `Integer.MIN_VALUE` is not modelled. This changes the lion's river-jump test too: from (2147483647, 0) to (-2147483648, 0) Java's `ox - dx` wraps to -1, so it sees no jump and rejects the move, while `LeaoJumps` holds in the model and `ExecuteMove` accepts it.
- JavaText.LowerChar: case mapping covers ASCII and Latin-1 only; `equalsIgnoreCase` is modelled as equality after `toLowerCase`, which differs from Java for characters such as U+017F.
- JavaText.ToLower: `toLowerCase()` in `SelvaPieceFactory.java:23` uses the default locale; the model is locale-independent, so it does not capture, for example, the Turkish locale mapping `I` to dotless `ı`.
- JavaText.ParseInt: only ASCII digits are accepted; Java also accepts other Unicode digits.
- Controller.GameController.MoveBranch: requires a board (before `start` the source throws a null-pointer exception in `promptForPieceName`) and a cell at an accepted destination (`checkVictory` throws on a lion jump off the board); both are preconditions.
- Uncaught Java exceptions elsewhere (array index out of range, null board cells) are preconditions stating exactly when the call does not throw.
- Observers' own `update` behaviour: notifications are recorded in the ghost trace `delivered`.
