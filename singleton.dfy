/**
 * The `singleton` package: `TurnManager` holds whose turn it is. White
 * starts; `switchTurn` hands the turn to the other side; `reset` gives it
 * back to White. The static `instance` field is the `TurnRegistry` object
 * here, so that `getInstance` can be stated over it.
 */
module Singleton {
  import opened Context

  /** The side that moves after `s`. */
  function Other(s: PlayerSide): (o: PlayerSide)
    ensures o != s
  {
    if s == White then Black else White
  }

  /** Handing the turn over twice gives it back. */
  lemma SwitchTwice(s: PlayerSide)
    ensures Other(Other(s)) == s
  {
  }

  /** The side to move after `n` switches, starting from `s`. */
  function AfterSwitches(s: PlayerSide, n: nat): PlayerSide
  {
    if n == 0 then s else Other(AfterSwitches(s, n - 1))
  }

  /** The turn alternates: an even number of switches gives `s` back, an odd number the other side. */
  lemma {:induction false} AfterSwitchesParity(s: PlayerSide, n: nat)
    ensures AfterSwitches(s, n) == if n % 2 == 0 then s else Other(s)
  {
    if n > 0 {
      AfterSwitchesParity(s, n - 1);
    }
  }

  /**
   * Asking whether the side `getCurrentSide` returns is the current player
   * always says yes, so a caller that checks its own answer this way never
   * takes its "not your turn" branch.
   */
  lemma CurrentSideIsCurrentPlayer(t: TurnManager)
    ensures t.IsCurrentPlayer(t.GetCurrentSide())
    ensures forall side: PlayerSide :: t.IsCurrentPlayer(side) <==> side == t.GetCurrentSide()
  {
  }

  class TurnManager {
    var currentSide: PlayerSide

    /** The private constructor: White starts. */
    constructor ()
      ensures currentSide == White
    {
      currentSide := White;
    }

    function GetCurrentSide(): (s: PlayerSide)
      reads this
      ensures s == currentSide
    {
      currentSide
    }

    /** `switchTurn()`: the other side's turn. */
    method SwitchTurn()
      modifies this
      ensures currentSide == Other(old(currentSide))
    {
      currentSide := if currentSide == White then Black else White;
    }

    /** `isCurrentPlayer(side)`: whether it is `side`'s turn. */
    function IsCurrentPlayer(side: PlayerSide): (r: bool)
      reads this
      ensures r <==> side == currentSide
    {
      currentSide == side
    }

    /** `reset()`: White's turn, whoever had it. */
    method Reset()
      modifies this
      ensures currentSide == White
    {
      currentSide := White;
    }
  }

  /** The class-level state of `TurnManager`: its lazily created `instance`. */
  class TurnRegistry {
    var instance: TurnManager?

    constructor ()
      ensures instance == null
    {
      instance := null;
    }

    /** `getInstance()`: the first call makes a manager with White to move; every call returns that same object. */
    method GetInstance() returns (t: TurnManager)
      modifies this
      ensures old(instance) != null ==> t == old(instance)
      ensures old(instance) == null ==> fresh(t) && t.currentSide == White
      ensures instance == t
    {
      if instance == null {
        instance := new TurnManager();
      }
      t := instance;
    }
  }
}
