/** The board dimensions, the initial layout and the per-kind step table, together with the board
    geometry every engine uses (shape, bounds, reading and writing one square). */
module Constants {
  import opened Types

  const BoardRows: int := 4
  const BoardCols: int := 3

  /** A board of BoardRows rows of BoardCols squares. */
  predicate IsGrid(b: Board) {
    |b| == BoardRows && forall r | 0 <= r < |b| :: |b[r]| == BoardCols
  }

  type Grid = b: Board | IsGrid(b)
    witness [[None, None, None], [None, None, None], [None, None, None], [None, None, None]]

  /** The negation of `isOutOfBounds(row, col)`. */
  predicate InBounds(p: Position) {
    0 <= p.row < BoardRows && 0 <= p.col < BoardCols
  }

  /** `board[p.row][p.col]` */
  function At(b: Grid, p: Position): Square
    requires InBounds(p)
  {
    b[p.row][p.col]
  }

  /** The board after the assignment `board[p.row][p.col] = sq`. */
  function Put(b: Grid, p: Position, sq: Square): (r: Grid)
    requires InBounds(p)
    ensures At(r, p) == sq
    ensures forall q | InBounds(q) && q != p :: At(r, q) == At(b, q)
  {
    b[p.row := b[p.row][p.col := sq]]
  }

  /** Row-major rank of a square: the order in which the engines' nested row/column loops visit it. */
  function RowMajor(p: Position): int {
    p.row * BoardCols + p.col
  }

  /** INITIAL_BOARD: GOTE's Giraffe-Lion-Elephant on row 0 with its Chick in front of the Lion,
      SENTE's Elephant-Lion-Giraffe on row 3 with its Chick in front. */
  const InitialBoard: Grid := [
    [Some(Piece(Giraffe, Gote)), Some(Piece(Lion, Gote)), Some(Piece(Elephant, Gote))],
    [None, Some(Piece(Chick, Gote)), None],
    [None, Some(Piece(Chick, Sente)), None],
    [Some(Piece(Elephant, Sente)), Some(Piece(Lion, Sente)), Some(Piece(Giraffe, Sente))]
  ]

  /** PIECE_MOVES: the [dy, dx] steps of each kind, from SENTE's point of view (dy = -1 is forward). */
  function PieceMoveOffsets(kind: PieceType): seq<(int, int)> {
    match kind
    case Lion => [(-1, -1), (-1, 0), (-1, 1), (0, -1), (0, 1), (1, -1), (1, 0), (1, 1)]
    case Giraffe => [(-1, 0), (1, 0), (0, -1), (0, 1)]
    case Elephant => [(-1, -1), (-1, 1), (1, -1), (1, 1)]
    case Chick => [(-1, 0)]
    case Hen => [(-1, -1), (-1, 0), (-1, 1), (0, -1), (0, 1), (1, 0)]
  }

  /** The set of steps of a kind. */
  function OffsetSet(kind: PieceType): set<(int, int)> {
    set d | d in PieceMoveOffsets(kind)
  }

  /** The same piece with its owner swapped: what the opposite side holds on the mirrored square. */
  function SwapOwner(sq: Square): Square {
    match sq
    case None => None
    case Some(p) => Some(Piece(p.kind, Opponent(p.player)))
  }

  /** The initial board has the declared 4x3 shape. */
  lemma InitialBoardShape()
    ensures |InitialBoard| == BoardRows
    ensures forall r | 0 <= r < BoardRows :: |InitialBoard[r]| == BoardCols
  {
  }

  /** Exactly one Lion per player: GOTE's at (0,1) and SENTE's at (3,1). */
  lemma {:induction false} InitialLions()
    ensures forall q | InBounds(q) ::
      (At(InitialBoard, q) == Some(Piece(Lion, Gote)) <==> q == Position(0, 1))
    ensures forall q | InBounds(q) ::
      (At(InitialBoard, q) == Some(Piece(Lion, Sente)) <==> q == Position(3, 1))
  {
    forall q | InBounds(q)
      ensures At(InitialBoard, q) == Some(Piece(Lion, Gote)) <==> q == Position(0, 1)
      ensures At(InitialBoard, q) == Some(Piece(Lion, Sente)) <==> q == Position(3, 1)
    {
      assert q.row == 0 || q.row == 1 || q.row == 2 || q.row == 3;
      assert q.col == 0 || q.col == 1 || q.col == 2;
    }
  }

  /** The layout is symmetric under a half turn: the square (r, c) holds what (3-r, 2-c) holds,
      with the owner swapped. */
  lemma {:induction false} InitialBoardPointSymmetric()
    ensures forall q | InBounds(q) ::
      At(InitialBoard, Position(BoardRows - 1 - q.row, BoardCols - 1 - q.col)) == SwapOwner(At(InitialBoard, q))
  {
    forall q | InBounds(q)
      ensures At(InitialBoard, Position(BoardRows - 1 - q.row, BoardCols - 1 - q.col)) == SwapOwner(At(InitialBoard, q))
    {
      assert q.row == 0 || q.row == 1 || q.row == 2 || q.row == 3;
      assert q.col == 0 || q.col == 1 || q.col == 2;
    }
  }

  /** Every step moves exactly one square: a non-zero pair with both components in {-1, 0, 1}. */
  lemma OffsetsAreSingleSteps(kind: PieceType)
    ensures forall d | d in PieceMoveOffsets(kind) ::
      d != (0, 0) && -1 <= d.0 <= 1 && -1 <= d.1 <= 1
  {
  }

  /** No step is listed twice for the same kind. */
  lemma OffsetsDistinct(kind: PieceType)
    ensures forall i, j | 0 <= i < j < |PieceMoveOffsets(kind)| ::
      PieceMoveOffsets(kind)[i] != PieceMoveOffsets(kind)[j]
  {
  }

  /** The Giraffe's orthogonal steps and the Elephant's diagonal steps are disjoint and together are the Lion's. */
  lemma GiraffeAndElephantMakeLion()
    ensures OffsetSet(Giraffe) + OffsetSet(Elephant) == OffsetSet(Lion)
    ensures OffsetSet(Giraffe) !! OffsetSet(Elephant)
  {
    forall d
      ensures d in OffsetSet(Giraffe) + OffsetSet(Elephant) <==> d in OffsetSet(Lion)
      ensures !(d in OffsetSet(Giraffe) && d in OffsetSet(Elephant))
    {
      assert d in OffsetSet(Lion) <==> d in PieceMoveOffsets(Lion);
    }
  }

  /** The Hen moves like the Lion except for the two backward diagonals. */
  lemma HenIsLionWithoutBackDiagonals()
    ensures OffsetSet(Hen) == OffsetSet(Lion) - {(1, -1), (1, 1)}
  {
    forall d
      ensures d in OffsetSet(Hen) <==> d in OffsetSet(Lion) - {(1, -1), (1, 1)}
    {
      assert d in OffsetSet(Lion) <==> d in PieceMoveOffsets(Lion);
    }
  }

  /** The Chick has the single forward step. */
  lemma ChickStepsForward()
    ensures PieceMoveOffsets(Chick) == [(-1, 0)]
  {
  }

  // ---------------------------------------------------------------- the row-major board scan

  /** The squares in the order the engines' nested `for (r ...) for (c ...)` loops visit them. */
  const Squares: seq<Position> := [
    Position(0, 0), Position(0, 1), Position(0, 2),
    Position(1, 0), Position(1, 1), Position(1, 2),
    Position(2, 0), Position(2, 1), Position(2, 2),
    Position(3, 0), Position(3, 1), Position(3, 2)
  ]

  /** The k-th visited square is on the board, and the square (r, c) is visited k = RowMajor((r, c))-th. */
  lemma SquaresInOrder()
    ensures |Squares| == BoardRows * BoardCols
    ensures forall k | 0 <= k < |Squares| :: InBounds(Squares[k]) && RowMajor(Squares[k]) == k
  {
  }

  /** Where the square (r, c) stands in the scan. */
  lemma SquareIndex(p: Position)
    requires InBounds(p)
    ensures 0 <= RowMajor(p) < |Squares| && Squares[RowMajor(p)] == p
  {
  }
}
