/** A constructed position on which the server's and the client's hasAnyValidMove disagree. It is
    not reachable from the initial layout (it has twelve pieces, and GOTE Chicks stand on GOTE's
    promotion row): it shows that the two functions differ, not that a game exposes it. SENTE's Lion on
    (2,1) is boxed in by GOTE pieces, every square around it guarded, and SENTE holds one Chick.
    The only candidate action is dropping that Chick on the one empty square (1,0), where it
    checks GOTE's Lion on (0,0) and GOTE has no reply. The server forbids this drop-mate and so
    finds no legal action for SENTE; the client, without the drop-mate test, accepts it. */
module EnginesDiffer {
  import opened Types
  import opened Lists
  import opened Constants
  import opened GameLogic
  import opened ClientLogic

  /** The constructed board, rows from top (row 0, GOTE's home row) to bottom. */
  const Boxed: Grid := [
    [Some(Piece(Lion, Gote)), Some(Piece(Chick, Gote)), Some(Piece(Chick, Gote))],
    [None, Some(Piece(Elephant, Gote)), Some(Piece(Chick, Gote))],
    [Some(Piece(Chick, Gote)), Some(Piece(Lion, Sente)), Some(Piece(Chick, Gote))],
    [Some(Piece(Giraffe, Gote)), Some(Piece(Chick, Gote)), Some(Piece(Chick, Gote))]
  ]

  /** SENTE holds a Chick, GOTE holds nothing. */
  const Hands: Captured := Captured([Chick], [])

  /** The only empty square of `Boxed`. */
  const Hole: Position := Position(1, 0)

  /** `Boxed` once SENTE's Chick is dropped on the hole. */
  const Dropped: Grid := [
    [Some(Piece(Lion, Gote)), Some(Piece(Chick, Gote)), Some(Piece(Chick, Gote))],
    [Some(Piece(Chick, Sente)), Some(Piece(Elephant, Gote)), Some(Piece(Chick, Gote))],
    [Some(Piece(Chick, Gote)), Some(Piece(Lion, Sente)), Some(Piece(Chick, Gote))],
    [Some(Piece(Giraffe, Gote)), Some(Piece(Chick, Gote)), Some(Piece(Chick, Gote))]
  ]

  lemma DroppedIsPlace()
    ensures Place(Boxed, Hole, Piece(Chick, Sente)) == Dropped
  {
    assert Place(Boxed, Hole, Piece(Chick, Sente))[1] == Dropped[1];
  }

  /** What `Boxed` holds: SENTE's Lion on (2,1), the hole on (1,0), GOTE's Lion on (0,0), and
      GOTE's pieces everywhere else. */
  lemma BoxedSquares()
    ensures forall q | InBounds(q) ::
      && (OwnedBy(At(Boxed, q), Sente) <==> q == Position(2, 1))
      && (At(Boxed, q) == None <==> q == Hole)
      && (IsLionOf(At(Boxed, q), Gote) <==> q == Position(0, 0))
  {
    forall q | InBounds(q)
      ensures && (OwnedBy(At(Boxed, q), Sente) <==> q == Position(2, 1))
              && (At(Boxed, q) == None <==> q == Hole)
              && (IsLionOf(At(Boxed, q), Gote) <==> q == Position(0, 0))
    {
      SquareCases(q);
    }
  }

  /** What `Dropped` holds: SENTE's Chick on the hole and its Lion on (2,1), GOTE's Lion on
      (0,0), and GOTE's pieces everywhere else. */
  lemma DroppedSquares()
    ensures forall q | InBounds(q) ::
      && (OwnedBy(At(Dropped, q), Sente) <==> q == Hole || q == Position(2, 1))
      && At(Dropped, q).Some?
      && (IsLionOf(At(Dropped, q), Gote) <==> q == Position(0, 0))
      && (IsLionOf(At(Dropped, q), Sente) <==> q == Position(2, 1))
  {
    forall q | InBounds(q)
      ensures && (OwnedBy(At(Dropped, q), Sente) <==> q == Hole || q == Position(2, 1))
              && At(Dropped, q).Some?
              && (IsLionOf(At(Dropped, q), Gote) <==> q == Position(0, 0))
              && (IsLionOf(At(Dropped, q), Sente) <==> q == Position(2, 1))
    {
      SquareCases(q);
    }
  }

  /** Every square SENTE's Lion can step to is guarded: each move leaves it in check. */
  lemma SenteHasNoLegalMove()
    ensures forall from, to :: !LegalMove(Sente, Boxed, from, to)
  {
    hide InCheck, FindLion, PieceMoves;
    BoxedSquares();
    forall from: Position, to: Position
      ensures !LegalMove(Sente, Boxed, from, to)
    {
      if InBounds(from) && OwnedBy(At(Boxed, from), Sente) && InBounds(to) && to in PieceMoves(At(Boxed, from).value, from, Boxed) {
        assert from == Position(2, 1);
        PieceMovesMembership(Piece(Lion, Sente), from, Boxed, to);
        var b := Relocate(Boxed, from, to);
        OnlyLionIsFound(Sente, b, to);
        if to == Position(1, 0) {
          CheckedBy(Sente, b, Position(0, 0), (-1, 0));
        } else if to == Position(1, 1) {
          CheckedBy(Sente, b, Position(0, 1), (-1, 0));
        } else if to == Position(1, 2) {
          CheckedBy(Sente, b, Position(0, 2), (-1, 0));
        } else if to == Position(2, 0) {
          CheckedBy(Sente, b, Position(3, 0), (1, 0));
        } else if to == Position(2, 2) {
          CheckedBy(Sente, b, Position(1, 2), (-1, 0));
        } else if to == Position(3, 0) {
          CheckedBy(Sente, b, Position(2, 0), (-1, 0));
        } else if to == Position(3, 1) {
          CheckedBy(Sente, b, Position(3, 0), (0, 1));
        } else {
          CheckedBy(Sente, b, Position(2, 2), (-1, 0));
        }
      }
    }
  }

  /** Dropping the Chick does not expose SENTE's Lion: no GOTE piece steps onto (2,1). */
  lemma DropIsSafe()
    ensures !InCheck(Sente, Dropped)
  {
    hide InCheck, FindLion, PieceMoves;
    DroppedSquares();
    OnlyLionIsFound(Sente, Dropped, Position(2, 1));
    forall p, d | InBounds(p) && OwnedBy(At(Dropped, p), Gote) && d in PieceMoveOffsets(At(Dropped, p).value.kind)
      ensures Target(At(Dropped, p).value, p, d) != Position(2, 1)
    {
      SquareCases(p);
    }
    NotCheckedBy(Sente, Dropped);
  }

  /** No GOTE piece but the Lion can step onto the dropped Chick. */
  lemma OnlyTheLionReachesTheHole(from: Position)
    requires InBounds(from) && OwnedBy(At(Dropped, from), Gote) && from != Position(0, 0)
    ensures forall d | d in PieceMoveOffsets(At(Dropped, from).value.kind) :: Target(At(Dropped, from).value, from, d) != Hole
  {
    SquareCases(from);
  }

  /** After the drop GOTE is in check and every GOTE move leaves it in check: the Lion's only
      free neighbour is the Chick, guarded by SENTE's Lion, and no other piece can take the Chick. */
  lemma GoteHasNoLegalMove()
    ensures InCheck(Gote, Dropped)
    ensures forall from, to :: !LegalMove(Gote, Dropped, from, to)
  {
    hide InCheck, FindLion, PieceMoves;
    DroppedSquares();
    OnlyLionIsFound(Gote, Dropped, Position(0, 0));
    CheckedBy(Gote, Dropped, Hole, (-1, 0));
    forall from: Position, to: Position
      ensures !LegalMove(Gote, Dropped, from, to)
    {
      if InBounds(from) && OwnedBy(At(Dropped, from), Gote) && InBounds(to) && to in PieceMoves(At(Dropped, from).value, from, Dropped) {
        var piece := At(Dropped, from).value;
        PieceMovesMembership(piece, from, Dropped, to);
        var b := Relocate(Dropped, from, to);
        if from == Position(0, 0) {
          assert to == Hole;
          OnlyLionIsFound(Gote, b, to);
          CheckedBy(Gote, b, Position(2, 1), (-1, -1));
        } else {
          OnlyTheLionReachesTheHole(from);
          OnlyLionIsFound(Gote, b, Position(0, 0));
          CheckedBy(Gote, b, Hole, (-1, 0));
        }
      }
    }
  }

  /** Dropping the Chick on the hole mates GOTE. */
  lemma DropMates()
    ensures MatingChickDrop(Sente, Boxed, Hands, Hole)
  {
    hide InCheck, LegalMove;
    DroppedIsPlace();
    GoteHasNoLegalMove();
    forall a
      ensures a !in LegalActions(Gote, Dropped, Hands)
    {
      LegalActionsMembership(Gote, Dropped, Hands, a);
    }
    NoElementsEmpty(LegalActions(Gote, Dropped, Hands));
  }

  /** SENTE's only drop is the mating one, which the server forbids. */
  lemma SenteHasNoLegalDrop()
    ensures forall kind, pos :: !LegalDrop(Sente, Boxed, Hands, kind, pos)
  {
    hide InCheck, MatingChickDrop;
    BoxedSquares();
    DropMates();
  }

  /** On this position the server's hasAnyValidMove is false and the client's true, so the
      server's checkForWinner declares GOTE the winner (SENTE, to move, has no legal action)
      while the client's declares no winner. */
  lemma EnginesDisagree()
    ensures !CanAct(Sente, Boxed, Hands) && ClientCanAct(Sente, Boxed, Hands)
    ensures Winner(Boxed, Sente, Hands) == Some(Gote) && ClientWinner(Boxed, Sente, Hands) == None
  {
    hide InCheck, LegalMove, LegalDrop, UnderAttack, FindLion;
    SenteHasNoLegalMove();
    SenteHasNoLegalDrop();
    forall a
      ensures a !in LegalActions(Sente, Boxed, Hands)
    {
      LegalActionsMembership(Sente, Boxed, Hands, a);
    }
    NoElementsEmpty(LegalActions(Sente, Boxed, Hands));
    DropIsSafe();
    DroppedIsPlace();
    BoxedSquares();
    assert SafeDrop(Sente, Boxed, Chick, Hole);
    OnlyLionIsFound(Sente, Boxed, Position(2, 1));
    OnlyLionIsFound(Gote, Boxed, Position(0, 0));
  }
}
