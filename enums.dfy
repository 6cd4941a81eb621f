/** The `enums` package: the six terrain kinds and `CellType.lookup`. */
module Enums {
  import opened Context

  datatype CellType = Land | Water | DenWhite | DenBlack | TrapWhite | TrapBlack

  /** `CellType.lookup`: only the two dens are placed; everything else is land. */
  function Lookup(pos: Position): (t: CellType)
    ensures t == DenWhite <==> pos.row == 3 && pos.col == 0
    ensures t == DenBlack <==> pos.row == 3 && pos.col == 8
    ensures t != Water && t != TrapWhite && t != TrapBlack
  {
    if pos.row == 3 && pos.col == 0 then DenWhite
    else if pos.row == 3 && pos.col == 8 then DenBlack
    else Land
  }
}
