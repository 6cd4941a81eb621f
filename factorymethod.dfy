/**
 * The `factorymethod` package: a cell is a (position, terrain) record
 * (`CellAbstractProduct` and its subclasses have no other state), and
 * `SelvaCellCreator` classifies a position by fixed coordinate tables.
 */
module FactoryMethod {
  import opened Context
  import opened Enums

  /** `CellAbstractProduct`: `getPosition()` is `pos`, `getType()` is `kind`. */
  datatype Cell = Cell(pos: Position, kind: CellType)

  function LandCell(p: Position): Cell { Cell(p, Land) }
  function WaterCell(p: Position): Cell { Cell(p, Water) }
  function TrapCell(p: Position, whiteSide: bool): Cell { Cell(p, if whiteSide then TrapWhite else TrapBlack) }
  function DenCell(p: Position, whiteSide: bool): Cell { Cell(p, if whiteSide then DenWhite else DenBlack) }

  /** Table entries are `{e[0], e[1]}` and match when `y == e[0] && x == e[1]`. */
  const Waters: seq<(int, int)> :=
    [(3, 1), (3, 2), (4, 1), (4, 2), (5, 1), (5, 2), (3, 4), (3, 5), (4, 4), (4, 5), (5, 4), (5, 5)]
  const TrapsWhite: seq<(int, int)> := [(2, 0), (3, 1), (4, 0)]
  const TrapsBlack: seq<(int, int)> := [(2, 8), (3, 7), (4, 8)]

  /** The search loop `for (int[] e : table) if (y == e[0] && x == e[1]) return ...`. */
  function Matches(table: seq<(int, int)>, x: int, y: int): bool
  {
    |table| > 0 && ((y == table[0].0 && x == table[0].1) || Matches(table[1..], x, y))
  }

  lemma {:induction false} MatchesIsMembership(table: seq<(int, int)>, x: int, y: int)
    ensures Matches(table, x, y) <==> (y, x) in table
  {
    if |table| > 0 {
      MatchesIsMembership(table[1..], x, y);
      assert table == [table[0]] + table[1..];
    }
  }

  /** `determineCellType`, reading `x = pos.row` and `y = pos.col`; the tables are tried in order. */
  function DetermineCellType(pos: Position): CellType
  {
    var x, y := pos.row, pos.col;
    if Matches(Waters, x, y) then Water
    else if x == 3 && y == 0 then DenWhite
    else if x == 3 && y == 8 then DenBlack
    else if Matches(TrapsWhite, x, y) then TrapWhite
    else if Matches(TrapsBlack, x, y) then TrapBlack
    else Land
  }

  /** An independent description of the layout the classifier produces. */
  ghost function SelvaLayout(x: int, y: int): CellType
  {
    if (3 <= y <= 5) && (x == 1 || x == 2 || x == 4 || x == 5) then Water
    else if x == 3 && y == 0 then DenWhite
    else if x == 3 && y == 8 then DenBlack
    else if x == 0 && (y == 2 || y == 4) then TrapWhite
    else if (x == 8 && (y == 2 || y == 4)) || (x == 7 && y == 3) then TrapBlack
    else Land
  }

  lemma WaterTable(x: int, y: int)
    ensures Matches(Waters, x, y) <==> (3 <= y <= 5) && (x == 1 || x == 2 || x == 4 || x == 5)
  {
    MatchesIsMembership(Waters, x, y);
  }

  lemma TrapTables(x: int, y: int)
    ensures Matches(TrapsWhite, x, y) <==> (x == 0 && (y == 2 || y == 4)) || (x == 1 && y == 3)
    ensures Matches(TrapsBlack, x, y) <==> (x == 8 && (y == 2 || y == 4)) || (x == 7 && y == 3)
  {
    MatchesIsMembership(TrapsWhite, x, y);
    MatchesIsMembership(TrapsBlack, x, y);
  }

  lemma DetermineCellTypeIsLayout(pos: Position)
    ensures DetermineCellType(pos) == SelvaLayout(pos.row, pos.col)
  {
    var x, y := pos.row, pos.col;
    WaterTable(x, y);
    TrapTables(x, y);
    if !Matches(Waters, x, y) && !(x == 3 && (y == 0 || y == 8)) {
      assert !(x == 1 && y == 3);
    }
  }

  /** Water is tested first: every (x, y) with y in {3, 4, 5} and x in {1, 2, 4, 5} is water, and nothing else is. */
  lemma WaterRegion(pos: Position)
    ensures DetermineCellType(pos) == Water <==> pos.col in {3, 4, 5} && pos.row in {1, 2, 4, 5}
  {
    DetermineCellTypeIsLayout(pos);
  }

  lemma DensExactly(pos: Position)
    ensures DetermineCellType(pos) == DenWhite <==> pos.row == 3 && pos.col == 0
    ensures DetermineCellType(pos) == DenBlack <==> pos.row == 3 && pos.col == 8
  {
    DetermineCellTypeIsLayout(pos);
  }

  /** The white-trap entry {3, 1} is also water, and water wins. */
  lemma WhiteTrapShadowedByWater()
    ensures Matches(TrapsWhite, 1, 3) && DetermineCellType(Position(1, 3)) == Water
  {
    MatchesIsMembership(TrapsWhite, 1, 3);
    DetermineCellTypeIsLayout(Position(1, 3));
  }

  lemma WhiteTrapsOnlyTwo(pos: Position)
    ensures DetermineCellType(pos) == TrapWhite <==> pos.row == 0 && pos.col in {2, 4}
  {
    DetermineCellTypeIsLayout(pos);
  }

  /** Black traps need x in {7, 8}, so on a 7-wide board (x = pos.row < 7) there are none. */
  lemma NoBlackTrapOnSevenWideBoard(pos: Position)
    requires 0 <= pos.row < 7
    ensures DetermineCellType(pos) != TrapBlack
  {
    DetermineCellTypeIsLayout(pos);
  }

  /** Anything not in a table is land. */
  lemma LandElsewhere(pos: Position)
    requires !(pos.col in {3, 4, 5} && pos.row in {1, 2, 4, 5})
    requires pos.row != 3 || (pos.col != 0 && pos.col != 8)
    requires !Matches(TrapsWhite, pos.row, pos.col) && !Matches(TrapsBlack, pos.row, pos.col)
    ensures DetermineCellType(pos) == Land
  {
    DetermineCellTypeIsLayout(pos);
  }

  /** `factoryMethod`: the switch builds the cell class of the classified type, white mapped to `true`. */
  function FactoryMethod(pos: Position): (c: Cell)
    ensures c.pos == pos && c.kind == DetermineCellType(pos)
  {
    match DetermineCellType(pos)
    case Land => LandCell(pos)
    case Water => WaterCell(pos)
    case TrapWhite => TrapCell(pos, true)
    case TrapBlack => TrapCell(pos, false)
    case DenWhite => DenCell(pos, true)
    case DenBlack => DenCell(pos, false)
  }

  /** `CellType.lookup` places its dens where the classifier does, since there x = pos.row. */
  lemma LookupAgreesOnDens(pos: Position)
    ensures Lookup(pos) == DenWhite <==> DetermineCellType(pos) == DenWhite
    ensures Lookup(pos) == DenBlack <==> DetermineCellType(pos) == DenBlack
  {
    DensExactly(pos);
  }

  /** The terrain a Selva builder lays out: `cells[y][x]` is the cell created for `Position(x, y)`. */
  function SelvaCells(width: nat, height: nat): (cells: seq<seq<Cell>>)
    ensures |cells| == height
    ensures forall y | 0 <= y < height :: |cells[y]| == width
    ensures forall y, x | 0 <= y < height && 0 <= x < width :: cells[y][x] == FactoryMethod(Position(x, y))
  {
    seq(height, y => seq(width, x => FactoryMethod(Position(x, y))))
  }
}
