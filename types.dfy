/** The data model shared by the server engine, the client engine and the simple AI:
    players, pieces, squares, boards, positions, actions and the game state record. */
module Types {

  datatype Option<+T> = None | Some(value: T)

  datatype Result<+T, +E> = Success(value: T) | Failure(error: E)

  /** The two sides. SENTE moves first; the enum gives it the number 0 and GOTE the number 1. */
  datatype Player = Sente | Gote

  /** The numeric value the enum assigns to each player. */
  function PlayerValue(p: Player): (v: int)
    ensures v == 0 <==> p == Sente
    ensures v == 1 <==> p == Gote
  {
    match p
    case Sente => 0
    case Gote => 1
  }

  /** `player === SENTE ? GOTE : SENTE`, written inline throughout the engines. */
  function Opponent(p: Player): (q: Player)
    ensures q != p
  {
    if p == Sente then Gote else Sente
  }

  /** JavaScript truthiness of an optional player (`!!winner`): the value 0 of SENTE is falsy,
      so only a GOTE winner is truthy. */
  function Truthy(w: Option<Player>): (t: bool)
    ensures t <==> w == Some(Gote)
  {
    w.Some? && PlayerValue(w.value) != 0
  }

  datatype PieceType = Lion | Giraffe | Elephant | Chick | Hen

  /** A piece pairs its type with its owner (the TypeScript field `type` is called `kind` here). */
  datatype Piece = Piece(kind: PieceType, player: Player)

  /** A square holds a piece or is empty (`null`). */
  type Square = Option<Piece>

  /** Rows of squares; the 4x3 shape is the predicate Constants.IsGrid. */
  type Board = seq<seq<Square>>

  datatype Position = Position(row: int, col: int)

  /** `Move | Drop`, told apart in the source by the presence of `from`. */
  datatype Action =
    | Move(from: Position, to: Position)
    | Drop(pieceType: PieceType, to: Position)

  /** The `captured` record: the hand of each player, a list of piece types with repeats. */
  datatype Captured = Captured(sente: seq<PieceType>, gote: seq<PieceType>)
  {
    /** `captured[p]` */
    function Of(p: Player): seq<PieceType>
    {
      if p == Sente then sente else gote
    }

    /** The record with `captured[p]` replaced by `hand`. */
    function With(p: Player, hand: seq<PieceType>): (c: Captured)
      ensures c.Of(p) == hand && c.Of(Opponent(p)) == Of(Opponent(p))
    {
      if p == Sente then Captured(hand, gote) else Captured(sente, hand)
    }
  }

  /** The game state record. `isDraw` and `history` are declared by the source but never written by its
      rules, so every transition carries them over unchanged. `lastMove` only ever holds a Move. */
  datatype GameState = GameState(
    board: Board,
    captured: Captured,
    currentPlayer: Player,
    turn: int,
    winner: Option<Player>,
    isDraw: Option<bool>,
    history: Option<map<string, int>>,
    isCheck: bool,
    isCheckmate: bool,
    lastMove: Option<Action>)
}
