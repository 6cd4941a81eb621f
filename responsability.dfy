/**
 * The `responsability` package: a chain of move validators. Each link runs
 * its own `check` and, only when that passes, hands the move to the next
 * link; a link without a successor answers true. The chain is immutable, so
 * it is a datatype.
 */
module Responsability {
  import opened Context
  import opened Enums
  import opened FactoryMethod
  import opened Rules
  import opened Builder

  /** The three concrete validators. */
  datatype Validator = BoundsValidator | CellEntryValidator | CaptureValidator

  /** A validator and its `next` link; `Last` is one whose `next` is null. */
  datatype Chain = Last(v: Validator) | Link(v: Validator, next: Chain)

  /** `CellEntryValidator` reads `getCellAt(dx, dy)` without a bounds check of its own. */
  predicate CanCheck(v: Validator, board: TabletopProduct, dx: int, dy: int)
  {
    v.CellEntryValidator? ==> board.HasCell(dx, dy)
  }

  /**
   * Each validator's `check`: the destination is on the board; the
   * destination is not the mover's own den; the destination is empty or
   * holds an enemy. None of them looks at the origin.
   */
  predicate Check(v: Validator, peca: Peca, board: TabletopProduct, ox: int, oy: int, dx: int, dy: int)
    requires board.Valid() && CanCheck(v, board, dx, dy)
    reads board.pieceGrid
  {
    match v
    case BoundsValidator => board.IsWithinBounds(dx, dy)
    case CellEntryValidator => PodeEntrar(peca, board.GetCellAt(dx, dy))
    case CaptureValidator =>
      var target := board.GetPieceAt(dx, dy);
      target == null || target.side != peca.side
  }

  /** Every link the chain reaches can run its check: a link after a failing one is never run. */
  predicate CanValidate(c: Chain, peca: Peca, board: TabletopProduct, ox: int, oy: int, dx: int, dy: int)
    requires board.Valid()
    reads board.pieceGrid
  {
    CanCheck(c.v, board, dx, dy)
    && (c.Link? && Check(c.v, peca, board, ox, oy, dx, dy) ==> CanValidate(c.next, peca, board, ox, oy, dx, dy))
  }

  /** `MoveValidator.validate`: false at the first failing check, true past the last link. */
  predicate Validate(c: Chain, peca: Peca, board: TabletopProduct, ox: int, oy: int, dx: int, dy: int)
    requires board.Valid() && CanValidate(c, peca, board, ox, oy, dx, dy)
    reads board.pieceGrid
  {
    if !Check(c.v, peca, board, ox, oy, dx, dy) then false
    else c.Last? || Validate(c.next, peca, board, ox, oy, dx, dy)
  }

  /** The validators of a chain, head first. */
  function Links(c: Chain): (vs: seq<Validator>)
    ensures |vs| >= 1 && vs[0] == c.v
    ensures c.Link? ==> vs[1..] == Links(c.next)
  {
    match c
    case Last(v) => [v]
    case Link(v, next) => [v] + Links(next)
  }

  /** Every check of the list passes. */
  ghost predicate AllPass(vs: seq<Validator>, peca: Peca, board: TabletopProduct, ox: int, oy: int, dx: int, dy: int)
    requires board.Valid() && forall i | 0 <= i < |vs| :: CanCheck(vs[i], board, dx, dy)
    reads board.pieceGrid
  {
    forall i | 0 <= i < |vs| :: Check(vs[i], peca, board, ox, oy, dx, dy)
  }

  /** Every check of a list passes exactly when the head's and every check of the tail pass. */
  lemma ChecksSplit(vs: seq<Validator>, peca: Peca, board: TabletopProduct, ox: int, oy: int, dx: int, dy: int)
    requires board.Valid() && |vs| >= 1
    requires forall i | 0 <= i < |vs| :: CanCheck(vs[i], board, dx, dy)
    ensures forall i | 0 <= i < |vs[1..]| :: CanCheck(vs[1..][i], board, dx, dy)
    ensures AllPass(vs, peca, board, ox, oy, dx, dy) <==>
      Check(vs[0], peca, board, ox, oy, dx, dy) && AllPass(vs[1..], peca, board, ox, oy, dx, dy)
  {
    assert forall i | 0 <= i < |vs[1..]| :: vs[1..][i] == vs[i + 1];
    if Check(vs[0], peca, board, ox, oy, dx, dy) && AllPass(vs[1..], peca, board, ox, oy, dx, dy) {
      forall i | 0 <= i < |vs|
        ensures Check(vs[i], peca, board, ox, oy, dx, dy)
      {
        if i > 0 {
          assert vs[i] == vs[1..][i - 1];
        }
      }
    }
  }

  /** When every link can run, the chain answers true exactly when every link's check passes. */
  lemma {:induction false} ValidateIffAllChecks(c: Chain, peca: Peca, board: TabletopProduct, ox: int, oy: int, dx: int, dy: int)
    requires board.Valid()
    requires forall i | 0 <= i < |Links(c)| :: CanCheck(Links(c)[i], board, dx, dy)
    ensures CanValidate(c, peca, board, ox, oy, dx, dy)
    ensures Validate(c, peca, board, ox, oy, dx, dy) <==> AllPass(Links(c), peca, board, ox, oy, dx, dy)
  {
    assert CanCheck(Links(c)[0], board, dx, dy);
    ChecksSplit(Links(c), peca, board, ox, oy, dx, dy);
    if c.Link? {
      assert Links(c.next) == Links(c)[1..];
      ValidateIffAllChecks(c.next, peca, board, ox, oy, dx, dy);
      assert Validate(c, peca, board, ox, oy, dx, dy) <==>
        Check(c.v, peca, board, ox, oy, dx, dy) && Validate(c.next, peca, board, ox, oy, dx, dy);
    } else {
      assert Links(c)[1..] == [];
      assert AllPass([], peca, board, ox, oy, dx, dy);
      assert Validate(c, peca, board, ox, oy, dx, dy) == Check(c.v, peca, board, ox, oy, dx, dy);
    }
  }

  /** A failing check ends the chain whatever follows; a passing one answers what the rest answers. */
  lemma ShortCircuit(c: Chain, peca: Peca, board: TabletopProduct, ox: int, oy: int, dx: int, dy: int)
    requires board.Valid() && CanValidate(c, peca, board, ox, oy, dx, dy)
    ensures !Check(c.v, peca, board, ox, oy, dx, dy) ==> !Validate(c, peca, board, ox, oy, dx, dy)
    ensures Check(c.v, peca, board, ox, oy, dx, dy) && c.Last? ==> Validate(c, peca, board, ox, oy, dx, dy)
    ensures Check(c.v, peca, board, ox, oy, dx, dy) && c.Link? ==>
      Validate(c, peca, board, ox, oy, dx, dy) == Validate(c.next, peca, board, ox, oy, dx, dy)
  {
  }

  /** A bounds check at the head rejects an off-board destination before any later link, whatever those links need. */
  lemma BoundsFirst(rest: Chain, peca: Peca, board: TabletopProduct, ox: int, oy: int, dx: int, dy: int)
    requires board.Valid() && !board.IsWithinBounds(dx, dy)
    ensures CanValidate(Link(BoundsValidator, rest), peca, board, ox, oy, dx, dy)
    ensures !Validate(Link(BoundsValidator, rest), peca, board, ox, oy, dx, dy)
  {
  }

  /** The capture check passes off the board, where `getPieceAt` answers null, and on every empty cell. */
  lemma CapturePassesOffBoard(peca: Peca, board: TabletopProduct, ox: int, oy: int, dx: int, dy: int)
    requires board.Valid() && (!board.IsWithinBounds(dx, dy) || board.GetPieceAt(dx, dy) == null)
    ensures Check(CaptureValidator, peca, board, ox, oy, dx, dy)
  {
  }

  /** Bounds, then own-den entry, then capture. */
  function StandardChain(): Chain
  {
    Link(BoundsValidator, Link(CellEntryValidator, Last(CaptureValidator)))
  }

  /**
   * On a board whose cells cover its grid, the standard chain can always
   * run, and accepts exactly the moves onto the board, not into the mover's
   * own den, and not onto a piece of its own side.
   */
  lemma StandardChainMeaning(peca: Peca, board: TabletopProduct, ox: int, oy: int, dx: int, dy: int)
    requires board.Valid() && (board.IsWithinBounds(dx, dy) ==> board.HasCell(dx, dy))
    ensures CanValidate(StandardChain(), peca, board, ox, oy, dx, dy)
    ensures Validate(StandardChain(), peca, board, ox, oy, dx, dy) <==>
      board.IsWithinBounds(dx, dy)
      && !((board.GetCellAt(dx, dy).kind == DenWhite && peca.side == White) || (board.GetCellAt(dx, dy).kind == DenBlack && peca.side == Black))
      && (board.GetPieceAt(dx, dy) == null || board.GetPieceAt(dx, dy).side != peca.side)
  {
    var tail := Link(CellEntryValidator, Last(CaptureValidator));
    if board.IsWithinBounds(dx, dy) {
      assert Validate(StandardChain(), peca, board, ox, oy, dx, dy) == Validate(tail, peca, board, ox, oy, dx, dy);
      assert Validate(tail, peca, board, ox, oy, dx, dy) <==>
        PodeEntrar(peca, board.GetCellAt(dx, dy)) && Validate(Last(CaptureValidator), peca, board, ox, oy, dx, dy);
    }
  }
}
