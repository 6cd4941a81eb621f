/**
 * The `abstractfactory` package: `SelvaPieceFactory.create` picks a creator
 * by the lower-cased type name, and anything it does not know becomes a
 * NullPiece, a white piece named "Peça Inválida" whose strategy refuses
 * every move.
 */
module AbstractFactory {
  import opened Wrappers
  import opened Context
  import opened JavaText

  /** The branches of `create`'s switch. */
  datatype PieceKind = LeaoKind | TigreKind | ElefanteKind | NullKind

  /** The case `create` takes for `tipo`: its lower-cased form against "leão", "tigre" and "elefante". */
  function Kind(tipo: string): PieceKind
  {
    var t := ToLower(tipo);
    if t == "leão" then LeaoKind
    else if t == "tigre" then TigreKind
    else if t == "elefante" then ElefanteKind
    else NullKind
  }

  /** The name each creator gives its piece. */
  function KindName(k: PieceKind): string
  {
    match k
    case LeaoKind => "Leão"
    case TigreKind => "Tigre"
    case ElefanteKind => "Elefante"
    case NullKind => "Peça Inválida"
  }

  /** The strategy each creator installs. */
  function KindStrategy(k: PieceKind): MovimentoStrategy
  {
    match k
    case LeaoKind => LeaoMovimento
    case TigreKind => TigreMovimento
    case ElefanteKind => ElefanteMovimento
    case NullKind => NullPieceMovimento
  }

  /** The side of the created piece: the one asked for, but always white for a NullPiece. */
  function KindSide(k: PieceKind, side: PlayerSide): PlayerSide
  {
    if k == NullKind then White else side
  }

  method CreateLeao(side: PlayerSide) returns (p: Peca)
    ensures fresh(p) && p.nome == "Leão" && p.side == side
    ensures p.movimentoStrategy == Some(LeaoMovimento) && p.state == NormalState
  {
    p := new Peca.Unplaced("Leão", side, Some(LeaoMovimento));
  }

  method CreateTigre(side: PlayerSide) returns (p: Peca)
    ensures fresh(p) && p.nome == "Tigre" && p.side == side
    ensures p.movimentoStrategy == Some(TigreMovimento) && p.state == NormalState
  {
    p := new Peca.Unplaced("Tigre", side, Some(TigreMovimento));
  }

  method CreateElefante(side: PlayerSide) returns (p: Peca)
    ensures fresh(p) && p.nome == "Elefante" && p.side == side
    ensures p.movimentoStrategy == Some(ElefanteMovimento) && p.state == NormalState
  {
    p := new Peca.Unplaced("Elefante", side, Some(ElefanteMovimento));
  }

  /** `new NullPiece()`. Its `getNome` override answers the same constant as its name field. */
  method NewNullPiece() returns (p: Peca)
    ensures fresh(p) && p.nome == "Peça Inválida" && p.side == White
    ensures p.movimentoStrategy == Some(NullPieceMovimento) && p.state == NormalState
  {
    p := new Peca.Unplaced("Peça Inválida", White, Some(NullPieceMovimento));
  }

  /** `SelvaPieceFactory.create(tipo, side)`. */
  method Create(tipo: string, side: PlayerSide) returns (p: Peca)
    ensures fresh(p) && p.state == NormalState
    ensures p.nome == KindName(Kind(tipo)) && p.side == KindSide(Kind(tipo), side)
    ensures p.movimentoStrategy == Some(KindStrategy(Kind(tipo)))
  {
    var t := ToLower(tipo);
    if t == "leão" {
      p := CreateLeao(side);
    } else if t == "tigre" {
      p := CreateTigre(side);
    } else if t == "elefante" {
      p := CreateElefante(side);
    } else {
      p := NewNullPiece();
    }
  }

  /** Matching ignores case: a name and its lower-cased form take the same branch. */
  lemma KindIgnoresCase(tipo: string)
    ensures Kind(ToLower(tipo)) == Kind(tipo)
  {
    ToLowerIdempotent(tipo);
  }

  /**
   * Re-creating a piece from its own name gives the same kind back, so the
   * same name, side and strategy; a NullPiece's name gives a NullPiece.
   */
  lemma CreateRoundTrip(k: PieceKind, side: PlayerSide)
    ensures Kind(KindName(k)) == k
    ensures KindName(Kind(KindName(k))) == KindName(k)
    ensures KindStrategy(Kind(KindName(k))) == KindStrategy(k)
    ensures KindSide(Kind(KindName(k)), KindSide(k, side)) == KindSide(k, side)
  {
    KindNames();
  }

  /** Each creator's name selects that creator again, and the NullPiece's name selects none. */
  lemma KindNames()
    ensures Kind("Leão") == LeaoKind && Kind("Tigre") == TigreKind && Kind("Elefante") == ElefanteKind
    ensures Kind("Peça Inválida") == NullKind
  {
    LowerIs("Leão", "leão");
    LowerIs("Tigre", "tigre");
    LowerIs("Elefante", "elefante");
    assert |ToLower("Peça Inválida")| == 13;
  }

  /** The upper-case spellings are matched too, Latin-1 capitals included. */
  lemma UpperCaseNames()
    ensures Kind("LEÃO") == LeaoKind && Kind("TIGRE") == TigreKind && Kind("ELEFANTE") == ElefanteKind
  {
    LowerIs("LEÃO", "leão");
    LowerIs("TIGRE", "tigre");
    LowerIs("ELEFANTE", "elefante");
  }

  /** The other species' names have no creator, so a logged move of one reloads as a NullPiece. */
  lemma OtherSpeciesAreNull()
    ensures Kind("Rato") == NullKind && Kind("Gato") == NullKind && Kind("Lobo") == NullKind
    ensures Kind("Cão") == NullKind && Kind("Leopardo") == NullKind
  {
    assert Kind("Rato") == NullKind by {
      assert ToLower("Rato")[0] == 'r' && |ToLower("Rato")| == 4;
    }
    assert Kind("Gato") == NullKind by {
      assert ToLower("Gato")[0] == 'g' && |ToLower("Gato")| == 4;
    }
    assert Kind("Lobo") == NullKind by {
      assert ToLower("Lobo")[1] == 'o' && |ToLower("Lobo")| == 4;
    }
    assert Kind("Cão") == NullKind by {
      assert |ToLower("Cão")| == 3;
    }
    assert Kind("Leopardo") == NullKind by {
      assert ToLower("Leopardo")[0] == 'l' && |ToLower("Leopardo")| == 8;
    }
  }
}
