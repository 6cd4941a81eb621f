/** The `rules` package: static predicates over a cell's terrain and a piece's side. */
module Rules {
  import opened Context
  import opened Enums
  import opened FactoryMethod

  predicate IsAgua(cell: Cell) { cell.kind == Water }

  predicate IsToca(cell: Cell) { cell.kind == DenWhite || cell.kind == DenBlack }

  predicate IsArmadilha(cell: Cell) { cell.kind == TrapWhite || cell.kind == TrapBlack }

  /** A piece may enter any cell but its own den; the enemy den is allowed. */
  function PodeEntrar(peca: Peca, cell: Cell): (r: bool)
    ensures !r <==> (cell.kind == DenWhite && peca.side == White) || (cell.kind == DenBlack && peca.side == Black)
    ensures !r ==> IsToca(cell)
    ensures cell.kind == DenWhite && peca.side == Black ==> r
    ensures cell.kind == DenBlack && peca.side == White ==> r
  {
    if cell.kind == DenWhite && peca.side == White then false
    else if cell.kind == DenBlack && peca.side == Black then false
    else true
  }

  /** The piece stands on a trap of the other side. No validator or strategy calls this. */
  function EstaEmArmadilhaInimiga(peca: Peca, cell: Cell): (r: bool)
    ensures r ==> IsArmadilha(cell)
    ensures cell.kind == TrapWhite && peca.side == White ==> !r
    ensures cell.kind == TrapBlack && peca.side == Black ==> !r
    ensures IsArmadilha(cell) && !((cell.kind == TrapWhite && peca.side == White) || (cell.kind == TrapBlack && peca.side == Black)) ==> r
  {
    (cell.kind == TrapWhite && peca.side == Black) || (cell.kind == TrapBlack && peca.side == White)
  }

  lemma TerrainPredicatesExclusive(cell: Cell)
    ensures !(IsAgua(cell) && IsToca(cell)) && !(IsAgua(cell) && IsArmadilha(cell)) && !(IsToca(cell) && IsArmadilha(cell))
    ensures IsAgua(cell) || IsToca(cell) || IsArmadilha(cell) <==> cell.kind != Land
  {
  }
}
