/** The authoritative server engine (server/gameLogic.js): pseudo-legal piece moves, Lion lookup,
    attack and check detection, legal action generation with the Chick-drop restrictions, win
    detection and the state transition.

    The functions are the rules; the source's loops are the methods, each proved equal to the
    function that specifies it. */
module GameLogic {
  import opened Types
  import opened Lists
  import opened Constants

  // ---------------------------------------------------------------- squares and boards

  predicate OwnedBy(sq: Square, p: Player) {
    sq.Some? && sq.value.player == p
  }

  predicate IsLionOf(sq: Square, p: Player) {
    sq == Some(Piece(Lion, p))
  }

  /** The row on which a player's Chick promotes (and onto which it may not be dropped). */
  function PromotionRow(p: Player): int {
    if p == Sente then 0 else BoardRows - 1
  }

  /** The scratch board of a simulated move: `temp[to] = temp[from]; temp[from] = null` (no promotion). */
  function Relocate(b: Grid, from: Position, to: Position): Grid
    requires InBounds(from) && InBounds(to)
  {
    Put(Put(b, to, At(b, from)), from, None)
  }

  /** The scratch board of a simulated drop: `temp[pos] = piece`. */
  function Place(b: Grid, pos: Position, piece: Piece): Grid
    requires InBounds(pos)
  {
    Put(b, pos, Some(piece))
  }

  /** 1 when the square is occupied (occupied = true) or empty (occupied = false), else 0. */
  function Tally(sq: Square, occupied: bool): nat {
    if sq.Some? == occupied then 1 else 0
  }

  function CountInRow(row: seq<Square>, occupied: bool): nat
    decreases |row|
  {
    if row == [] then 0 else Tally(row[0], occupied) + CountInRow(row[1..], occupied)
  }

  function CountOnBoard(b: Board, occupied: bool): nat
    decreases |b|
  {
    if b == [] then 0 else CountInRow(b[0], occupied) + CountOnBoard(b[1..], occupied)
  }

  /** The number of empty squares, the measure that makes the drop-mate recursion terminate. */
  function EmptySquares(b: Board): nat {
    CountOnBoard(b, false)
  }

  /** The number of pieces on the board. */
  function PiecesOnBoard(b: Board): nat {
    CountOnBoard(b, true)
  }

  lemma {:induction false} CountInRowUpdate(row: seq<Square>, c: int, sq: Square, occupied: bool)
    requires 0 <= c < |row|
    ensures CountInRow(row[c := sq], occupied) == CountInRow(row, occupied) - Tally(row[c], occupied) + Tally(sq, occupied)
    decreases |row|
  {
    if c == 0 {
      assert row[c := sq][1..] == row[1..];
    } else {
      assert row[c := sq][1..] == row[1..][c - 1 := sq];
      CountInRowUpdate(row[1..], c - 1, sq, occupied);
    }
  }

  lemma {:induction false} CountOnBoardUpdate(b: Board, r: int, row: seq<Square>, occupied: bool)
    requires 0 <= r < |b|
    ensures CountOnBoard(b[r := row], occupied) == CountOnBoard(b, occupied) - CountInRow(b[r], occupied) + CountInRow(row, occupied)
    decreases |b|
  {
    if r == 0 {
      assert b[r := row][1..] == b[1..];
    } else {
      assert b[r := row][1..] == b[1..][r - 1 := row];
      CountOnBoardUpdate(b[1..], r - 1, row, occupied);
    }
  }

  /** Writing one square changes each count by that square's old and new contribution only. */
  lemma CountAfterPut(b: Grid, p: Position, sq: Square, occupied: bool)
    requires InBounds(p)
    ensures CountOnBoard(Put(b, p, sq), occupied) == CountOnBoard(b, occupied) - Tally(At(b, p), occupied) + Tally(sq, occupied)
  {
    CountInRowUpdate(b[p.row], p.col, sq, occupied);
    CountOnBoardUpdate(b, p.row, b[p.row][p.col := sq], occupied);
  }

  /** Dropping onto an empty square leaves one empty square fewer: the recursive legality check of a
      Chick drop runs on a board strictly closer to full. */
  lemma PlaceFillsOneSquare(b: Grid, pos: Position, piece: Piece)
    requires InBounds(pos) && At(b, pos) == None
    ensures EmptySquares(Place(b, pos, piece)) == EmptySquares(b) - 1
  {
    CountAfterPut(b, pos, Some(piece), false);
  }

  // ---------------------------------------------------------------- getPieceMoves

  /** The square one step `d` away, with the row component negated for GOTE and the column kept. */
  function Target(piece: Piece, from: Position, d: (int, int)): Position {
    var finalDy := if piece.player == Sente then d.0 else -d.0;
    var finalDx := d.1;
    Position(from.row + finalDy, from.col + finalDx)
  }

  /** A destination the piece may step to: on the board and not holding one of its owner's pieces. */
  predicate CanLand(piece: Piece, b: Grid, to: Position) {
    InBounds(to) && !OwnedBy(At(b, to), piece.player)
  }

  /** The destination of one step, as a one-element list when the piece may land there. */
  function StepTo(piece: Piece, from: Position, b: Grid): ((int, int)) -> seq<Position> {
    d => if CanLand(piece, b, Target(piece, from, d)) then [Target(piece, from, d)] else []
  }

  /** getPieceMoves: the pseudo-legal destinations of `piece` standing on `from`, in the order of
      its step table. */
  function PieceMoves(piece: Piece, from: Position, b: Grid): seq<Position> {
    FlatMap(StepTo(piece, from, b), PieceMoveOffsets(piece.kind))
  }

  /** A square is a pseudo-legal destination exactly when it is on the board, does not hold one of
      the mover's pieces, and is one table step away, the row step negated for GOTE. */
  lemma PieceMovesMembership(piece: Piece, from: Position, b: Grid, to: Position)
    ensures to in PieceMoves(piece, from, b) <==>
      && InBounds(to)
      && !OwnedBy(At(b, to), piece.player)
      && exists d | d in PieceMoveOffsets(piece.kind) ::
           && to.row == from.row + (if piece.player == Sente then d.0 else -d.0)
           && to.col == from.col + d.1
  {
    var ds := PieceMoveOffsets(piece.kind);
    FlatMapMembership(StepTo(piece, from, b), ds, to);
    if exists d | d in ds :: Target(piece, from, d) == to {
      var d :| d in ds && Target(piece, from, d) == to;
      var i :| 0 <= i < |ds| && ds[i] == d;
      assert to in StepTo(piece, from, b)(ds[i]) <==> CanLand(piece, b, to);
    }
  }

  /** Every pseudo-legal destination is on the board. */
  lemma PieceMovesInBounds(piece: Piece, from: Position, b: Grid)
    ensures forall to | to in PieceMoves(piece, from, b) :: InBounds(to)
  {
    forall to | to in PieceMoves(piece, from, b)
      ensures InBounds(to)
    {
      PieceMovesMembership(piece, from, b, to);
    }
  }

  /** getPieceMoves as the source runs it: one pass over the step table, skipping off-board
      destinations and destinations holding the mover's own pieces. */
  method GetPieceMoves(piece: Piece, from: Position, currentBoard: Grid) returns (moves: seq<Position>)
    ensures moves == PieceMoves(piece, from, currentBoard)
  {
    hide PieceMoveOffsets;
    moves := [];
    var moveSet := PieceMoveOffsets(piece.kind);
    for i := 0 to |moveSet|
      invariant moves == FlatMap(StepTo(piece, from, currentBoard), moveSet[..i])
    {
      assert moveSet[..i + 1][..i] == moveSet[..i];
      var (dy, dx) := moveSet[i];
      var finalDy := if piece.player == Sente then dy else -dy;
      var finalDx := dx;
      var to := Position(from.row + finalDy, from.col + finalDx);
      if to.row < 0 || to.row >= BoardRows || to.col < 0 || to.col >= BoardCols {
        continue;
      }
      var destinationPiece := currentBoard[to.row][to.col];
      if destinationPiece.Some? && destinationPiece.value.player == piece.player {
        continue;
      }
      moves := moves + [to];
    }
    assert moveSet[..|moveSet|] == moveSet;
  }

  // ---------------------------------------------------------------- findLionPosition

  /** `q` comes before `p` in the row-major scan. */
  predicate Precedes(q: Position, p: Position) {
    q.row < p.row || (q.row == p.row && q.col < p.col)
  }

  /** The first Lion of `player` in row `r`, scanning columns from `c`. */
  function FindLionInRow(player: Player, b: Grid, r: int, c: int): Option<Position>
    requires 0 <= r < BoardRows && 0 <= c <= BoardCols
    decreases BoardCols - c
  {
    if c == BoardCols then None
    else if IsLionOf(b[r][c], player) then Some(Position(r, c))
    else FindLionInRow(player, b, r, c + 1)
  }

  /** The first Lion of `player` scanning rows from `r`. */
  function FindLionFrom(player: Player, b: Grid, r: int): Option<Position>
    requires 0 <= r <= BoardRows
    decreases BoardRows - r
  {
    if r == BoardRows then None
    else
      match FindLionInRow(player, b, r, 0)
      case Some(pos) => Some(pos)
      case None => FindLionFrom(player, b, r + 1)
  }

  /** findLionPosition: the first square, in row-major order, holding `player`'s Lion. */
  function FindLion(player: Player, b: Grid): Option<Position> {
    FindLionFrom(player, b, 0)
  }

  /** `lion` is `player`'s Lion and no Lion of `player` comes before it. */
  ghost predicate FirstLion(player: Player, b: Grid, lion: Position) {
    && InBounds(lion)
    && IsLionOf(At(b, lion), player)
    && forall q | InBounds(q) && Precedes(q, lion) :: !IsLionOf(At(b, q), player)
  }

  /** `player` has no Lion on the board. */
  ghost predicate NoLion(player: Player, b: Grid) {
    forall q | InBounds(q) :: !IsLionOf(At(b, q), player)
  }

  lemma {:induction false} FindLionInRowSpec(player: Player, b: Grid, r: int, c: int)
    requires 0 <= r < BoardRows && 0 <= c <= BoardCols
    ensures match FindLionInRow(player, b, r, c)
      case Some(p) =>
        p.row == r && c <= p.col < BoardCols && IsLionOf(b[r][p.col], player)
        && forall c' | c <= c' < p.col :: !IsLionOf(b[r][c'], player)
      case None => forall c' | c <= c' < BoardCols :: !IsLionOf(b[r][c'], player)
    decreases BoardCols - c
  {
    if c < BoardCols && !IsLionOf(b[r][c], player) {
      FindLionInRowSpec(player, b, r, c + 1);
    }
  }

  lemma {:induction false} FindLionFromSpec(player: Player, b: Grid, r: int)
    requires 0 <= r <= BoardRows
    ensures match FindLionFrom(player, b, r)
      case Some(p) =>
        r <= p.row && FirstLionAfter(player, b, r, p)
      case None => forall q | InBounds(q) && r <= q.row :: !IsLionOf(At(b, q), player)
    decreases BoardRows - r
  {
    if r < BoardRows {
      FindLionInRowSpec(player, b, r, 0);
      if FindLionInRow(player, b, r, 0).None? {
        FindLionFromSpec(player, b, r + 1);
      }
    }
  }

  /** `p` is `player`'s Lion and no Lion of `player` lies between the start of row `r` and `p`. */
  ghost predicate FirstLionAfter(player: Player, b: Grid, r: int, p: Position) {
    && InBounds(p)
    && IsLionOf(At(b, p), player)
    && forall q | InBounds(q) && r <= q.row && Precedes(q, p) :: !IsLionOf(At(b, q), player)
  }

  /** findLionPosition finds the first Lion of the player in row-major order, and finds none
      exactly when the player has no Lion on the board. */
  lemma FindLionSpec(player: Player, b: Grid)
    ensures FindLion(player, b).Some? ==> FirstLion(player, b, FindLion(player, b).value)
    ensures FindLion(player, b).None? <==> NoLion(player, b)
  {
    FindLionFromSpec(player, b, 0);
  }

  /** There is at most one first Lion. */
  lemma FirstLionUnique(player: Player, b: Grid, p: Position, q: Position)
    requires FirstLion(player, b, p) && FirstLion(player, b, q)
    ensures p == q
  {
  }

  /** findLionPosition as the source runs it: a row-major scan returning at the first Lion found. */
  method FindLionPosition(player: Player, currentBoard: Grid) returns (pos: Option<Position>)
    ensures pos == FindLion(player, currentBoard)
  {
    for r := 0 to BoardRows
      invariant FindLion(player, currentBoard) == FindLionFrom(player, currentBoard, r)
    {
      for c := 0 to BoardCols
        invariant FindLion(player, currentBoard) ==
          match FindLionInRow(player, currentBoard, r, c)
          case Some(p) => Some(p)
          case None => FindLionFrom(player, currentBoard, r + 1)
      {
        var piece := currentBoard[r][c];
        if piece.Some? && piece.value.kind == Lion && piece.value.player == player {
          return Some(Position(r, c));
        }
      }
    }
    return None;
  }

  // ---------------------------------------------------------------- isPositionUnderAttack

  /** A piece of `attacker` stands on `from` and `target` is among its pseudo-legal destinations. */
  predicate Attacks(b: Grid, attacker: Player, from: Position, target: Position)
    requires InBounds(from)
  {
    OwnedBy(At(b, from), attacker) && target in PieceMoves(At(b, from).value, from, b)
  }

  /** isPositionUnderAttack: some piece of `attacker` can step onto `target`. */
  predicate UnderAttack(target: Position, attacker: Player, b: Grid) {
    exists r, c | 0 <= r < BoardRows && 0 <= c < BoardCols :: Attacks(b, attacker, Position(r, c), target)
  }

  /** isPositionUnderAttack as the source runs it: a row-major scan over the attacker's pieces,
      returning true at the first whose destinations include the target. */
  method IsPositionUnderAttack(position: Position, attackingPlayer: Player, currentBoard: Grid) returns (attacked: bool)
    ensures attacked == UnderAttack(position, attackingPlayer, currentBoard)
  {
    hide PieceMoves;
    for r := 0 to BoardRows
      invariant forall r', c' | 0 <= r' < r && 0 <= c' < BoardCols ::
        !Attacks(currentBoard, attackingPlayer, Position(r', c'), position)
    {
      for c := 0 to BoardCols
        invariant forall r', c' | 0 <= r' < r && 0 <= c' < BoardCols ::
          !Attacks(currentBoard, attackingPlayer, Position(r', c'), position)
        invariant forall c' | 0 <= c' < c :: !Attacks(currentBoard, attackingPlayer, Position(r, c'), position)
      {
        var piece := currentBoard[r][c];
        if piece.Some? && piece.value.player == attackingPlayer {
          var moves := GetPieceMoves(piece.value, Position(r, c), currentBoard);
          if position in moves {
            assert Attacks(currentBoard, attackingPlayer, Position(r, c), position);
            return true;
          }
        }
      }
    }
    return false;
  }

  // ---------------------------------------------------------------- isKingInCheck

  /** isKingInCheck: true when the player has no Lion, otherwise whether the opponent attacks the
      square findLionPosition returns. */
  function InCheck(player: Player, b: Grid): bool {
    match FindLion(player, b)
    case None => true
    case Some(lionPos) => UnderAttack(lionPos, Opponent(player), b)
  }

  /** A player without a Lion counts as in check; a player whose first Lion stands on `lion` is in
      check exactly when some opposing piece has `lion` among its destinations. */
  lemma InCheckSpec(player: Player, b: Grid)
    ensures NoLion(player, b) ==> InCheck(player, b)
    ensures forall lion | FirstLion(player, b, lion) ::
      InCheck(player, b) <==>
        exists r, c | 0 <= r < BoardRows && 0 <= c < BoardCols ::
          && OwnedBy(b[r][c], Opponent(player))
          && lion in PieceMoves(b[r][c].value, Position(r, c), b)
  {
    hide PieceMoves;
    FindLionSpec(player, b);
    forall lion | FirstLion(player, b, lion)
      ensures InCheck(player, b) <==> UnderAttack(lion, Opponent(player), b)
    {
      FirstLionUnique(player, b, lion, FindLion(player, b).value);
    }
    forall lion | FirstLion(player, b, lion)
      ensures UnderAttack(lion, Opponent(player), b) <==>
        exists r, c | 0 <= r < BoardRows && 0 <= c < BoardCols ::
          && OwnedBy(b[r][c], Opponent(player))
          && lion in PieceMoves(b[r][c].value, Position(r, c), b)
    {
      if UnderAttack(lion, Opponent(player), b) {
        var r, c :| 0 <= r < BoardRows && 0 <= c < BoardCols && Attacks(b, Opponent(player), Position(r, c), lion);
        assert OwnedBy(b[r][c], Opponent(player)) && lion in PieceMoves(b[r][c].value, Position(r, c), b);
      }
      if exists r, c | 0 <= r < BoardRows && 0 <= c < BoardCols ::
          OwnedBy(b[r][c], Opponent(player)) && lion in PieceMoves(b[r][c].value, Position(r, c), b)
      {
        var r, c :| 0 <= r < BoardRows && 0 <= c < BoardCols &&
          OwnedBy(b[r][c], Opponent(player)) && lion in PieceMoves(b[r][c].value, Position(r, c), b);
        assert Attacks(b, Opponent(player), Position(r, c), lion);
      }
    }
  }

  /** isKingInCheck as the source runs it: findLionPosition, then isPositionUnderAttack. */
  method IsKingInCheck(player: Player, currentBoard: Grid) returns (inCheck: bool)
    ensures inCheck == InCheck(player, currentBoard)
  {
    var lionPos := FindLionPosition(player, currentBoard);
    if lionPos.None? {
      return true;
    }
    var opponent := Opponent(player);
    inCheck := IsPositionUnderAttack(lionPos.value, opponent, currentBoard);
  }

  /** The only Lion of `player` on the board is the one findLionPosition returns. */
  lemma OnlyLionIsFound(player: Player, b: Grid, lion: Position)
    requires InBounds(lion) && IsLionOf(At(b, lion), player)
    requires forall q | InBounds(q) && q != lion :: !IsLionOf(At(b, q), player)
    ensures FindLion(player, b) == Some(lion)
  {
    FindLionSpec(player, b);
  }

  /** A player is in check when one step `d` of an opposing piece lands on the Lion that
      findLionPosition returns. */
  lemma CheckedBy(player: Player, b: Grid, attacker: Position, d: (int, int))
    requires FindLion(player, b).Some?
    requires InBounds(attacker) && OwnedBy(At(b, attacker), Opponent(player))
    requires d in PieceMoveOffsets(At(b, attacker).value.kind)
    requires Target(At(b, attacker).value, attacker, d) == FindLion(player, b).value
    ensures InCheck(player, b)
  {
    var lion := FindLion(player, b).value;
    FindLionSpec(player, b);
    PieceMovesMembership(At(b, attacker).value, attacker, b, lion);
    assert Attacks(b, Opponent(player), Position(attacker.row, attacker.col), lion);
  }

  /** A player is not in check when no step of any opposing piece lands on the Lion that
      findLionPosition returns. */
  lemma NotCheckedBy(player: Player, b: Grid)
    requires FindLion(player, b).Some?
    requires forall p, d | InBounds(p) && OwnedBy(At(b, p), Opponent(player)) && d in PieceMoveOffsets(At(b, p).value.kind) ::
      Target(At(b, p).value, p, d) != FindLion(player, b).value
    ensures !InCheck(player, b)
  {
    var lion := FindLion(player, b).value;
    forall r, c | 0 <= r < BoardRows && 0 <= c < BoardCols
      ensures !Attacks(b, Opponent(player), Position(r, c), lion)
    {
      var p := Position(r, c);
      if OwnedBy(At(b, p), Opponent(player)) {
        PieceMovesMembership(At(b, p).value, p, b, lion);
      }
    }
  }

  // ---------------------------------------------------------------- getLegalActions: moves

  /** A move the legality filter keeps: the mover's piece stands on `from`, `to` is one of its
      pseudo-legal destinations (and so on the board), and after the bare relocation the mover is
      not in check. */
  predicate LegalMove(player: Player, b: Grid, from: Position, to: Position) {
    && InBounds(from)
    && OwnedBy(At(b, from), player)
    && to in PieceMoves(At(b, from).value, from, b)
    && InBounds(to)
    && !InCheck(player, Relocate(b, from, to))
  }

  /** The move `from` -> `to` as a one-element list when it leaves the mover out of check. */
  function SafeMove(player: Player, b: Grid, from: Position): Position -> seq<Action> {
    to => if InBounds(from) && InBounds(to) && !InCheck(player, Relocate(b, from, to)) then [Move(from, to)] else []
  }

  /** The legal moves of the piece on `from`, if it is the mover's, in the order of its destinations. */
  function MovesFromSquare(player: Player, b: Grid, from: Position): seq<Action> {
    if InBounds(from) && OwnedBy(At(b, from), player) then
      FlatMap(SafeMove(player, b, from), PieceMoves(At(b, from).value, from, b))
    else []
  }

  function SquareMoves(player: Player, b: Grid): Position -> seq<Action> {
    from => MovesFromSquare(player, b, from)
  }

  /** The legal moves in row-major order of their source square. */
  function LegalMoves(player: Player, b: Grid): seq<Action> {
    FlatMap(SquareMoves(player, b), Squares)
  }

  // ---------------------------------------------------------------- getLegalActions: drops

  /** Dropping a Chick on `pos` checks the opponent and leaves them without any legal action:
      the drop-mate that the source forbids by calling getLegalActions for the opponent. */
  predicate MatingChickDrop(player: Player, b: Grid, captured: Captured, pos: Position)
    requires InBounds(pos) && At(b, pos) == None
    decreases EmptySquares(b), 0
  {
    var temp := Place(b, pos, Piece(Chick, player));
    PlaceFillsOneSquare(b, pos, Piece(Chick, player));
    InCheck(Opponent(player), temp) && |LegalActions(Opponent(player), temp, captured)| == 0
  }

  /** The tests a drop on an empty square must pass: a Chick neither on the mover's promotion row
      nor mating, and no piece leaving the mover in check. */
  predicate DropAllowed(player: Player, b: Grid, captured: Captured, kind: PieceType, pos: Position)
    requires InBounds(pos) && At(b, pos) == None
    decreases EmptySquares(b), 1
  {
    && (kind == Chick ==> pos.row != PromotionRow(player) && !MatingChickDrop(player, b, captured, pos))
    && !InCheck(player, Place(b, pos, Piece(kind, player)))
  }

  /** The drop of `kind` on a square as a one-element list when the square is empty and the drop allowed. */
  function DropAt(player: Player, b: Grid, captured: Captured, kind: PieceType): Position -> seq<Action>
    decreases EmptySquares(b), 2
  {
    pos => if InBounds(pos) && At(b, pos) == None && DropAllowed(player, b, captured, kind, pos) then [Drop(kind, pos)] else []
  }

  /** The allowed drops of one type, in row-major order of the target square. */
  function DropsOfKind(player: Player, b: Grid, captured: Captured): PieceType -> seq<Action>
    decreases EmptySquares(b), 3
  {
    kind => FlatMap(DropAt(player, b, captured, kind), Squares)
  }

  /** getLegalActions: every legal move in row-major order of its source square, then, for each
      distinct type in the mover's hand in the order `[...new Set(hand)]` lists them, every allowed drop. */
  function LegalActions(player: Player, b: Grid, captured: Captured): seq<Action>
    decreases EmptySquares(b), 4
  {
    LegalMoves(player, b) + FlatMap(DropsOfKind(player, b, captured), Distinct(captured.Of(player)))
  }

  /** A drop the legality filter keeps. */
  predicate LegalDrop(player: Player, b: Grid, captured: Captured, kind: PieceType, pos: Position) {
    && kind in captured.Of(player)
    && InBounds(pos)
    && At(b, pos) == None
    && DropAllowed(player, b, captured, kind, pos)
  }

  /** The loop of getLegalActions over one piece's destinations: each is tried on a scratch board. */
  method SafeMovesOf(player: Player, currentBoard: Grid, from: Position, moves: seq<Position>) returns (actions: seq<Action>)
    requires InBounds(from) && forall to | to in moves :: InBounds(to)
    ensures actions == FlatMap(SafeMove(player, currentBoard, from), moves)
  {
    actions := [];
    for i := 0 to |moves|
      invariant actions == FlatMap(SafeMove(player, currentBoard, from), moves[..i])
    {
      assert moves[..i + 1][..i] == moves[..i];
      var move := moves[i];
      var tempBoard := currentBoard;
      tempBoard := Put(tempBoard, move, At(tempBoard, from));
      tempBoard := Put(tempBoard, from, None);
      var selfCheck := IsKingInCheck(player, tempBoard);
      if !selfCheck {
        actions := actions + [Move(from, move)];
      }
    }
    assert moves[..|moves|] == moves;
  }

  /** The body of getLegalActions' drop loop for one empty square: the Chick restrictions (the
      drop-mate test calling getLegalActions for the opponent), then the test for self-check. */
  method CanDrop(player: Player, currentBoard: Grid, currentCaptured: Captured, pieceType: PieceType, pos: Position)
    returns (allowed: bool)
    requires InBounds(pos) && At(currentBoard, pos) == None
    ensures allowed == DropAllowed(player, currentBoard, currentCaptured, pieceType, pos)
    decreases EmptySquares(currentBoard), 0
  {
    if pieceType == Chick {
      var promotionRow := if player == Sente then 0 else BoardRows - 1;
      if pos.row == promotionRow {
        return false;
      }
      var tempBoardForCheckmate := Place(currentBoard, pos, Piece(pieceType, player));
      var opponent := Opponent(player);
      var opponentInCheck := IsKingInCheck(opponent, tempBoardForCheckmate);
      if opponentInCheck {
        PlaceFillsOneSquare(currentBoard, pos, Piece(pieceType, player));
        var opponentActions := GetLegalActions(opponent, tempBoardForCheckmate, currentCaptured);
        if |opponentActions| == 0 {
          return false;
        }
      }
    }
    var tempBoard := Place(currentBoard, pos, Piece(pieceType, player));
    var selfCheck := IsKingInCheck(player, tempBoard);
    allowed := !selfCheck;
  }

  /** getLegalActions' row/column loop over the empty squares for one type in hand. */
  method DropsOf(player: Player, currentBoard: Grid, currentCaptured: Captured, pieceType: PieceType)
    returns (actions: seq<Action>)
    ensures actions == DropsOfKind(player, currentBoard, currentCaptured)(pieceType)
    decreases EmptySquares(currentBoard), 1
  {
    ghost var f := DropAt(player, currentBoard, currentCaptured, pieceType);
    SquaresInOrder();
    FlatMapEmpty(f, Squares);
    hide PieceMoves, InCheck, LegalActions, DropAllowed, Squares, FlatMap;
    actions := [];
    for r := 0 to BoardRows
      invariant actions == FlatMap(f, Squares[..r * BoardCols])
    {
      for c := 0 to BoardCols
        invariant actions == FlatMap(f, Squares[..r * BoardCols + c])
      {
        var pos := Position(r, c);
        SquareIndex(pos);
        FlatMapStep(f, Squares, r * BoardCols + c);
        if currentBoard[r][c] == None {
          var allowed := CanDrop(player, currentBoard, currentCaptured, pieceType, pos);
          if allowed {
            actions := actions + [Drop(pieceType, pos)];
          }
        }
      }
    }
    assert Squares[..BoardRows * BoardCols] == Squares;
  }

  /** The first half of getLegalActions: the row/column loop over the mover's pieces, each
      destination tried on a scratch board. */
  method GetLegalMoves(player: Player, currentBoard: Grid) returns (actions: seq<Action>)
    ensures actions == LegalMoves(player, currentBoard)
  {
    ghost var f := SquareMoves(player, currentBoard);
    SquaresInOrder();
    FlatMapEmpty(f, Squares);
    hide PieceMoves, InCheck, Squares, FlatMap;
    actions := [];
    for r := 0 to BoardRows
      invariant actions == FlatMap(f, Squares[..r * BoardCols])
    {
      for c := 0 to BoardCols
        invariant actions == FlatMap(f, Squares[..r * BoardCols + c])
      {
        var from := Position(r, c);
        SquareIndex(from);
        FlatMapStep(f, Squares, r * BoardCols + c);
        var piece := currentBoard[r][c];
        if piece.Some? && piece.value.player == player {
          var moves := GetPieceMoves(piece.value, from, currentBoard);
          PieceMovesInBounds(piece.value, from, currentBoard);
          var safe := SafeMovesOf(player, currentBoard, from, moves);
          actions := actions + safe;
        }
      }
    }
    assert Squares[..BoardRows * BoardCols] == Squares;
  }

  /** The second half of getLegalActions: the loop over the distinct types in hand, appending the
      allowed drops of each. */
  method GetLegalDrops(player: Player, currentBoard: Grid, currentCaptured: Captured, uniqueCaptured: seq<PieceType>)
    returns (actions: seq<Action>)
    ensures actions == FlatMap(DropsOfKind(player, currentBoard, currentCaptured), uniqueCaptured)
    decreases EmptySquares(currentBoard), 2
  {
    ghost var g := DropsOfKind(player, currentBoard, currentCaptured);
    FlatMapEmpty(g, uniqueCaptured);
    hide FlatMap;
    actions := [];
    for i := 0 to |uniqueCaptured|
      invariant actions == FlatMap(g, uniqueCaptured[..i])
    {
      FlatMapStep(g, uniqueCaptured, i);
      var drops := DropsOf(player, currentBoard, currentCaptured, uniqueCaptured[i]);
      actions := actions + drops;
    }
    assert uniqueCaptured[..|uniqueCaptured|] == uniqueCaptured;
  }

  /** getLegalActions as the source runs it: the legal moves, then the drops of each distinct type
      in hand, in the order `[...new Set(hand)]` lists them. */
  method GetLegalActions(player: Player, currentBoard: Grid, currentCaptured: Captured) returns (actions: seq<Action>)
    ensures actions == LegalActions(player, currentBoard, currentCaptured)
    decreases EmptySquares(currentBoard), 3
  {
    var moveActions := GetLegalMoves(player, currentBoard);
    var uniqueCaptured := Distinct(currentCaptured.Of(player));
    var dropActions := GetLegalDrops(player, currentBoard, currentCaptured, uniqueCaptured);
    actions := moveActions + dropActions;
  }

  // ---------------------------------------------------------------- what getLegalActions returns

  lemma MovesFromSquareMembership(player: Player, b: Grid, from: Position, a: Action)
    ensures a in MovesFromSquare(player, b, from) <==> a.Move? && a.from == from && LegalMove(player, b, from, a.to)
  {
    if InBounds(from) && OwnedBy(At(b, from), player) {
      var tos := PieceMoves(At(b, from).value, from, b);
      FlatMapMembership(SafeMove(player, b, from), tos, a);
      if a.Move? && a.from == from && LegalMove(player, b, from, a.to) {
        var i :| 0 <= i < |tos| && tos[i] == a.to;
        assert a in SafeMove(player, b, from)(tos[i]);
      }
    }
  }

  /** The move part of getLegalActions holds exactly the legal moves. */
  lemma LegalMovesMembership(player: Player, b: Grid, a: Action)
    ensures a in LegalMoves(player, b) <==> a.Move? && LegalMove(player, b, a.from, a.to)
  {
    FlatMapMembership(SquareMoves(player, b), Squares, a);
    SquaresInOrder();
    if a in LegalMoves(player, b) {
      var i :| 0 <= i < |Squares| && a in SquareMoves(player, b)(Squares[i]);
      MovesFromSquareMembership(player, b, Squares[i], a);
    }
    if a.Move? && LegalMove(player, b, a.from, a.to) {
      SquareIndex(a.from);
      MovesFromSquareMembership(player, b, a.from, a);
      assert a in SquareMoves(player, b)(Squares[RowMajor(a.from)]);
    }
  }

  /** The drops of one type hold exactly the allowed drops of that type on empty squares. */
  lemma DropsOfKindMembership(player: Player, b: Grid, captured: Captured, kind: PieceType, a: Action)
    ensures a in DropsOfKind(player, b, captured)(kind) <==>
      && a.Drop? && a.pieceType == kind && InBounds(a.to) && At(b, a.to) == None
      && DropAllowed(player, b, captured, kind, a.to)
  {
    var f := DropAt(player, b, captured, kind);
    FlatMapMembership(f, Squares, a);
    SquaresInOrder();
    if a.Drop? && a.pieceType == kind && InBounds(a.to) && At(b, a.to) == None && DropAllowed(player, b, captured, kind, a.to) {
      SquareIndex(a.to);
      assert a in f(Squares[RowMajor(a.to)]);
    }
  }

  /** The drop part of getLegalActions holds exactly the allowed drops of the types in hand. */
  lemma LegalDropsMembership(player: Player, b: Grid, captured: Captured, a: Action)
    ensures a in FlatMap(DropsOfKind(player, b, captured), Distinct(captured.Of(player))) <==>
      a.Drop? && LegalDrop(player, b, captured, a.pieceType, a.to)
  {
    var kinds := Distinct(captured.Of(player));
    FlatMapMembership(DropsOfKind(player, b, captured), kinds, a);
    if a in FlatMap(DropsOfKind(player, b, captured), kinds) {
      var i :| 0 <= i < |kinds| && a in DropsOfKind(player, b, captured)(kinds[i]);
      DropsOfKindMembership(player, b, captured, kinds[i], a);
    }
    if a.Drop? && LegalDrop(player, b, captured, a.pieceType, a.to) {
      var i :| 0 <= i < |kinds| && kinds[i] == a.pieceType;
      DropsOfKindMembership(player, b, captured, kinds[i], a);
    }
  }

  /** getLegalActions returns exactly the legal moves and the legal drops of the player. */
  lemma LegalActionsMembership(player: Player, b: Grid, captured: Captured, a: Action)
    ensures a in LegalActions(player, b, captured) <==>
      || (a.Move? && LegalMove(player, b, a.from, a.to))
      || (a.Drop? && LegalDrop(player, b, captured, a.pieceType, a.to))
  {
    LegalMovesMembership(player, b, a);
    LegalDropsMembership(player, b, captured, a);
  }

  // ---------------------------------------------------------------- hasAnyValidMove, checkForWinner

  /** hasAnyValidMove: the player has at least one legal action. */
  predicate CanAct(player: Player, b: Grid, captured: Captured) {
    |LegalActions(player, b, captured)| > 0
  }

  /** hasAnyValidMove as the source runs it: getLegalActions, then a test of its length. */
  method HasAnyValidMove(player: Player, currentBoard: Grid, currentCaptured: Captured) returns (has: bool)
    ensures has == CanAct(player, currentBoard, currentCaptured)
  {
    var actions := GetLegalActions(player, currentBoard, currentCaptured);
    has := |actions| > 0;
  }

  /** checkForWinner, judged after a move for the player `nextPlayer` about to move. */
  function Winner(b: Grid, nextPlayer: Player, captured: Captured): Option<Player> {
    var senteLionPos := FindLion(Sente, b);
    var goteLionPos := FindLion(Gote, b);
    if senteLionPos.None? then Some(Gote)
    else if goteLionPos.None? then Some(Sente)
    else if senteLionPos.value.row == 0 && !UnderAttack(senteLionPos.value, Gote, b) then Some(Sente)
    else if goteLionPos.value.row == BoardRows - 1 && !UnderAttack(goteLionPos.value, Sente, b) then Some(Gote)
    else if !CanAct(nextPlayer, b, captured) then Some(Opponent(nextPlayer))
    else None
  }

  /** The rules of checkForWinner in their order, the first that applies deciding: a missing SENTE
      Lion, a missing GOTE Lion, SENTE's Try (its Lion on row 0 and not attacked by GOTE), GOTE's Try
      (its Lion on row 3 and not attacked by SENTE), and the player to move having no legal action. */
  lemma WinnerRules(b: Grid, nextPlayer: Player, captured: Captured)
    ensures NoLion(Sente, b) ==> Winner(b, nextPlayer, captured) == Some(Gote)
    ensures !NoLion(Sente, b) && NoLion(Gote, b) ==> Winner(b, nextPlayer, captured) == Some(Sente)
    ensures forall sl, gl | FirstLion(Sente, b, sl) && FirstLion(Gote, b, gl) ::
      Winner(b, nextPlayer, captured) ==
        if sl.row == 0 && !UnderAttack(sl, Gote, b) then Some(Sente)
        else if gl.row == BoardRows - 1 && !UnderAttack(gl, Sente, b) then Some(Gote)
        else if |LegalActions(nextPlayer, b, captured)| == 0 then Some(Opponent(nextPlayer))
        else None
  {
    hide PieceMoves, UnderAttack, LegalActions;
    FindLionSpec(Sente, b);
    FindLionSpec(Gote, b);
    forall sl, gl | FirstLion(Sente, b, sl) && FirstLion(Gote, b, gl)
      ensures FindLion(Sente, b) == Some(sl) && FindLion(Gote, b) == Some(gl)
    {
      FirstLionUnique(Sente, b, sl, FindLion(Sente, b).value);
      FirstLionUnique(Gote, b, gl, FindLion(Gote, b).value);
    }
  }

  /** checkForWinner as the source runs it. */
  method CheckForWinner(currentBoard: Grid, nextPlayer: Player, currentCaptured: Captured) returns (winner: Option<Player>)
    ensures winner == Winner(currentBoard, nextPlayer, currentCaptured)
  {
    hide UnderAttack, LegalActions, CanAct;
    var senteLionPos := FindLionPosition(Sente, currentBoard);
    var goteLionPos := FindLionPosition(Gote, currentBoard);
    if senteLionPos.None? {
      return Some(Gote);
    }
    if goteLionPos.None? {
      return Some(Sente);
    }
    var sentePromotionRow := 0;
    if senteLionPos.value.row == sentePromotionRow {
      var attacked := IsPositionUnderAttack(senteLionPos.value, Gote, currentBoard);
      if !attacked {
        return Some(Sente);
      }
    }
    var gotePromotionRow := BoardRows - 1;
    if goteLionPos.value.row == gotePromotionRow {
      var attacked := IsPositionUnderAttack(goteLionPos.value, Sente, currentBoard);
      if !attacked {
        return Some(Gote);
      }
    }
    var has := HasAnyValidMove(nextPlayer, currentBoard, currentCaptured);
    if !has {
      return Some(Opponent(nextPlayer));
    }
    return None;
  }

  // ---------------------------------------------------------------- createInitialState, applyAction

  /** createInitialState(firstPlayer = SENTE): the initial layout, empty hands, turn 1, no check. */
  function CreateInitialState(firstPlayer: Player := Sente): GameState {
    GameState(InitialBoard, Captured([], []), firstPlayer, 1, None, None, None, false, false, None)
  }

  /** The squares a lemma about a fixed board has to look at one by one. */
  lemma SquareCases(p: Position)
    requires InBounds(p)
    ensures p.row == 0 || p.row == 1 || p.row == 2 || p.row == 3
    ensures p.col == 0 || p.col == 1 || p.col == 2
  {
  }

  /** Neither player is in check in the initial layout: every piece stands at least two rows
      from the opposing Lion. */
  lemma InitialNotInCheck(player: Player)
    ensures !InCheck(player, InitialBoard)
  {
    hide InCheck, FindLion, PieceMoves;
    InitialLions();
    var lion := if player == Sente then Position(3, 1) else Position(0, 1);
    OnlyLionIsFound(player, InitialBoard, lion);
    forall p, d | InBounds(p) && OwnedBy(At(InitialBoard, p), Opponent(player)) && d in PieceMoveOffsets(At(InitialBoard, p).value.kind)
      ensures Target(At(InitialBoard, p).value, p, d) != lion
    {
      SquareCases(p);
    }
    NotCheckedBy(player, InitialBoard);
  }

  /** Either player, moving first, has a legal action in the initial layout: its Chick takes the
      opposing Chick. */
  lemma InitialCanAct(player: Player)
    ensures CanAct(player, InitialBoard, Captured([], []))
  {
    hide InCheck, FindLion;
    InitialLions();
    var from := if player == Sente then Position(2, 1) else Position(1, 1);
    var to := if player == Sente then Position(1, 1) else Position(2, 1);
    var lion := if player == Sente then Position(3, 1) else Position(0, 1);
    var b := Relocate(InitialBoard, from, to);
    OnlyLionIsFound(player, b, lion);
    forall p, d | InBounds(p) && OwnedBy(At(b, p), Opponent(player)) && d in PieceMoveOffsets(At(b, p).value.kind)
      ensures Target(At(b, p).value, p, d) != lion
    {
      SquareCases(p);
    }
    NotCheckedBy(player, b);
    assert (-1, 0) in PieceMoveOffsets(Chick);
    PieceMovesMembership(Piece(Chick, player), from, InitialBoard, to);
    assert LegalMove(player, InitialBoard, from, to);
    LegalActionsMembership(player, InitialBoard, Captured([], []), Move(from, to));
  }

  /** The initial state: each Lion on its home square, both hands empty, `firstPlayer` (SENTE
      when omitted) to move on turn 1 with no last move, and flags that agree with the rules
      applyAction applies after every action: the player to move is not in check, and
      checkForWinner finds no winner, so `isCheckmate` is false. */
  lemma InitialStateFacts(firstPlayer: Player)
    ensures CreateInitialState().currentPlayer == Sente
    ensures var s := CreateInitialState(firstPlayer);
      && IsGrid(s.board)
      && FindLion(Sente, s.board) == Some(Position(3, 1))
      && FindLion(Gote, s.board) == Some(Position(0, 1))
      && s.captured.Of(Sente) == [] && s.captured.Of(Gote) == []
      && s.currentPlayer == firstPlayer && s.turn == 1 && s.lastMove == None
      && s.isCheck == InCheck(firstPlayer, s.board)
      && s.winner == Winner(s.board, firstPlayer, s.captured)
      && s.isCheckmate == Truthy(s.winner)
  {
    hide InCheck, CanAct;
    InitialLions();
    OnlyLionIsFound(Sente, InitialBoard, Position(3, 1));
    OnlyLionIsFound(Gote, InitialBoard, Position(0, 1));
    InitialNotInCheck(firstPlayer);
    InitialCanAct(firstPlayer);
  }

  /** What `applyAction` receives from the network: nothing, an action, or an object that is
      neither a Move (no `from`) nor a Drop (no `pieceType`). */
  datatype Received = Absent | Given(action: Action) | Unrecognised

  /** Every position an action names is on the board. */
  predicate ActionInBounds(a: Action) {
    match a
    case Move(from, to) => InBounds(from) && InBounds(to)
    case Drop(_, to) => InBounds(to)
  }

  /** The type that goes into the captor's hand: a Hen reverts to a Chick, every other type is kept. */
  function Demote(kind: PieceType): PieceType {
    if kind == Hen then Chick else kind
  }

  /** The piece as it stands after moving to `to`: a Chick reaching the mover's promotion row is a Hen. */
  function Promoted(mover: Player, piece: Piece, to: Position): Piece {
    if piece.kind == Chick && to.row == PromotionRow(mover) then Piece(Hen, piece.player) else piece
  }

  /** The board after the mover moves the piece on `from` to `to`. */
  function BoardAfterMove(b: Grid, mover: Player, from: Position, to: Position): Grid
    requires InBounds(from) && InBounds(to) && At(b, from).Some?
  {
    Put(Put(b, to, Some(Promoted(mover, At(b, from).value, to))), from, None)
  }

  /** The hands after the mover moves onto `to`, capturing whatever stands there. */
  function CapturedAfterMove(b: Grid, captured: Captured, mover: Player, to: Position): Captured
    requires InBounds(to)
  {
    match At(b, to)
    case Some(capturedPiece) => captured.With(mover, captured.Of(mover) + [Demote(capturedPiece.kind)])
    case None => captured
  }

  /** The hands after the mover drops a `kind`: the first such entry of the mover's hand removed. */
  function CapturedAfterDrop(captured: Captured, mover: Player, kind: PieceType): Captured {
    captured.With(mover, RemoveFirst(captured.Of(mover), kind))
  }

  /** The bookkeeping after an action: the turn passes, the turn counter advances after GOTE's
      move (or from 0), and the check and winner flags are recomputed for the next player. */
  function Settle(s: GameState, board: Grid, captured: Captured, lastMove: Option<Action>): GameState {
    var mover := s.currentPlayer;
    var nextPlayer := Opponent(mover);
    var winner := Winner(board, nextPlayer, captured);
    s.(board := board, captured := captured, currentPlayer := nextPlayer,
       turn := if mover == Gote || s.turn == 0 then s.turn + 1 else s.turn,
       lastMove := lastMove,
       isCheck := InCheck(nextPlayer, board),
       winner := winner,
       isCheckmate := Truthy(winner))
  }

  /** Whether the action changes the state: a drop always, a move when its source holds a piece. */
  predicate Effective(s: GameState, a: Action)
    requires IsGrid(s.board) && ActionInBounds(a)
  {
    a.Drop? || At(s.board, a.from).Some?
  }

  /** applyAction: the next state, or the state itself for a missing action, an unrecognised
      object, or a move from an empty square. */
  function Apply(s: GameState, received: Received): (next: GameState)
    requires IsGrid(s.board)
    requires received.Given? ==> ActionInBounds(received.action)
    ensures IsGrid(next.board)
  {
    match received
    case Absent => s
    case Unrecognised => s
    case Given(action) =>
      if !Effective(s, action) then s
      else
        var mover := s.currentPlayer;
        match action
        case Move(from, to) =>
          Settle(s, BoardAfterMove(s.board, mover, from, to), CapturedAfterMove(s.board, s.captured, mover, to), Some(action))
        case Drop(kind, to) =>
          Settle(s, Place(s.board, to, Piece(kind, mover)), CapturedAfterDrop(s.captured, mover, kind), None)
  }

  /** A missing action, an unrecognised object and a move from an empty square leave the state as it is. */
  lemma ApplyIgnores(s: GameState, received: Received)
    requires IsGrid(s.board)
    requires received.Given? ==> ActionInBounds(received.action) && !Effective(s, received.action)
    ensures Apply(s, received) == s
  {
  }

  /** A move from an occupied square relocates the (possibly promoted) piece, banks any capture,
      and settles the turn with the move as `lastMove`. */
  lemma ApplyMove(s: GameState, move: Action)
    requires IsGrid(s.board) && move.Move? && ActionInBounds(move) && At(s.board, move.from).Some?
    ensures Apply(s, Given(move)) ==
      Settle(s, BoardAfterMove(s.board, s.currentPlayer, move.from, move.to),
        CapturedAfterMove(s.board, s.captured, s.currentPlayer, move.to), Some(move))
  {
  }

  /** A drop places the piece, spends one entry of the hand, and settles the turn with no `lastMove`. */
  lemma ApplyDrop(s: GameState, drop: Action)
    requires IsGrid(s.board) && drop.Drop? && ActionInBounds(drop)
    ensures Apply(s, Given(drop)) ==
      Settle(s, Place(s.board, drop.to, Piece(drop.pieceType, s.currentPlayer)),
        CapturedAfterDrop(s.captured, s.currentPlayer, drop.pieceType), None)
  {
  }

  /** The move branch of applyAction on the clone's board and hands: bank the captured piece
      (a Hen as a Chick), relocate the mover's piece, and promote a Chick reaching the far row. */
  method MovePiece(board: Grid, captured: Captured, mover: Player, move: Action) returns (newBoard: Grid, newCaptured: Captured)
    requires move.Move? && ActionInBounds(move) && At(board, move.from).Some?
    ensures newBoard == BoardAfterMove(board, mover, move.from, move.to)
    ensures newCaptured == CapturedAfterMove(board, captured, mover, move.to)
  {
    var pieceToMove := board[move.from.row][move.from.col];
    var capturedPiece := board[move.to.row][move.to.col];
    newCaptured := captured;
    if capturedPiece.Some? {
      var capturedType := if capturedPiece.value.kind == Hen then Chick else capturedPiece.value.kind;
      newCaptured := newCaptured.With(mover, newCaptured.Of(mover) + [capturedType]);
    }
    // The source retypes the piece object after placing it; a value is retyped before it is placed.
    var piece := pieceToMove.value;
    var promotionRow := if mover == Sente then 0 else BoardRows - 1;
    if piece.kind == Chick && move.to.row == promotionRow {
      piece := piece.(kind := Hen);
    }
    newBoard := Put(board, move.to, Some(piece));
    newBoard := Put(newBoard, move.from, None);
  }

  /** The drop branch of applyAction: place the piece and splice the first entry of its type out
      of the mover's hand, if there is one. */
  method DropPiece(board: Grid, captured: Captured, mover: Player, drop: Action) returns (newBoard: Grid, newCaptured: Captured)
    requires drop.Drop? && ActionInBounds(drop)
    ensures newBoard == Place(board, drop.to, Piece(drop.pieceType, mover))
    ensures newCaptured == CapturedAfterDrop(captured, mover, drop.pieceType)
  {
    newBoard := Put(board, drop.to, Some(Piece(drop.pieceType, mover)));
    newCaptured := captured;
    var hand := newCaptured.Of(mover);
    var pieceIndex := IndexOf(hand, drop.pieceType);
    if pieceIndex > -1 {
      newCaptured := newCaptured.With(mover, hand[..pieceIndex] + hand[pieceIndex + 1..]);
    }
  }

  /** The bookkeeping that closes applyAction on the clone holding the new board, hands and last
      move: the turn passes, the counter advances, and the check and winner flags are written. */
  method FinishTurn(newGameState: GameState, currentActionPlayer: Player) returns (next: GameState)
    requires IsGrid(newGameState.board) && newGameState.currentPlayer == currentActionPlayer
    ensures next == Settle(newGameState, newGameState.board, newGameState.captured, newGameState.lastMove)
  {
    hide InCheck, Winner;
    next := newGameState;
    var nextPlayer := Opponent(currentActionPlayer);
    next := next.(currentPlayer := nextPlayer);
    if currentActionPlayer == Gote || next.turn == 0 {
      next := next.(turn := next.turn + 1);
    }
    var isCheck := IsKingInCheck(nextPlayer, next.board);
    next := next.(isCheck := isCheck);
    var winner := CheckForWinner(next.board, nextPlayer, next.captured);
    next := next.(winner := winner);
    next := next.(isCheckmate := Truthy(next.winner));
  }

  /** applyAction as the source runs it: the clone (a copy of the value) has its squares assigned
      and the mover's hand pushed or spliced, then the turn bookkeeping is written. */
  method ApplyAction(gameState: GameState, action: Received) returns (next: GameState)
    requires IsGrid(gameState.board)
    requires action.Given? ==> ActionInBounds(action.action)
    ensures next == Apply(gameState, action)
  {
    hide InCheck, Winner, Apply;
    var newGameState := gameState;
    var currentActionPlayer := newGameState.currentPlayer;
    if action.Absent? {
      ApplyIgnores(gameState, action);
      return gameState;
    }
    var board: Grid := newGameState.board;
    var captured := newGameState.captured;
    var lastMove: Option<Action>;
    if action.Given? && action.action.Move? {
      var move := action.action;
      if board[move.from.row][move.from.col].None? {
        ApplyIgnores(gameState, action);
        return gameState;
      }
      board, captured := MovePiece(board, captured, currentActionPlayer, move);
      lastMove := Some(move);
      ApplyMove(gameState, move);
    } else if action.Given? && action.action.Drop? {
      var drop := action.action;
      board, captured := DropPiece(board, captured, currentActionPlayer, drop);
      lastMove := None;
      ApplyDrop(gameState, drop);
    } else {
      ApplyIgnores(gameState, action);
      return gameState;
    }
    newGameState := newGameState.(board := board, captured := captured, lastMove := lastMove);
    next := FinishTurn(newGameState, currentActionPlayer);
  }

  // ---------------------------------------------------------------- what applyAction guarantees

  /** A move from an occupied square to another square: the source is emptied, the destination
      receives the moving piece (a Chick reaching the mover's far row as a Hen), every other square
      is kept; a piece standing on the destination goes into the mover's hand with a Hen demoted
      to a Chick and every other type (the Lion included) kept; the opponent's hand is untouched. */
  lemma ApplyMoveEffect(s: GameState, from: Position, to: Position)
    requires IsGrid(s.board) && InBounds(from) && InBounds(to) && from != to && At(s.board, from).Some?
    ensures
      var next := Apply(s, Given(Move(from, to)));
      var mover := s.currentPlayer;
      var piece := At(s.board, from).value;
      && At(next.board, from) == None
      && At(next.board, to) ==
           Some(if piece.kind == Chick && to.row == (if mover == Sente then 0 else BoardRows - 1) then Piece(Hen, piece.player) else piece)
      && (forall q | InBounds(q) && q != from && q != to :: At(next.board, q) == At(s.board, q))
      && next.captured.Of(mover) ==
           s.captured.Of(mover) +
             (match At(s.board, to)
              case None => []
              case Some(taken) => [if taken.kind == Hen then Chick else taken.kind])
      && next.captured.Of(Opponent(mover)) == s.captured.Of(Opponent(mover))
      && next.lastMove == Some(Move(from, to))
  {
    hide InCheck, Winner;
    ApplyMove(s, Move(from, to));
  }

  /** A move whose destination is its own source square, which applyAction does not reject: the
      capture step banks the moving piece itself (a Lion included, a Hen as a Chick), and the
      square is then emptied, so the piece leaves the board for the mover's hand. */
  lemma ApplyMoveOntoItself(s: GameState, p: Position)
    requires IsGrid(s.board) && InBounds(p) && At(s.board, p).Some?
    ensures
      var next := Apply(s, Given(Move(p, p)));
      var mover := s.currentPlayer;
      var piece := At(s.board, p).value;
      && At(next.board, p) == None
      && (forall q | InBounds(q) && q != p :: At(next.board, q) == At(s.board, q))
      && next.captured.Of(mover) == s.captured.Of(mover) + [if piece.kind == Hen then Chick else piece.kind]
      && next.captured.Of(Opponent(mover)) == s.captured.Of(Opponent(mover))
      && next.lastMove == Some(Move(p, p))
  {
    hide InCheck, Winner;
    ApplyMove(s, Move(p, p));
  }

  /** A drop puts the mover's piece of that type on the square and keeps every other square;
      when the type is held, the mover's hand loses exactly one entry of it, otherwise the hand is
      kept; the opponent's hand is untouched and there is no last move. */
  lemma ApplyDropEffect(s: GameState, kind: PieceType, to: Position)
    requires IsGrid(s.board) && InBounds(to)
    ensures
      var next := Apply(s, Given(Drop(kind, to)));
      var mover := s.currentPlayer;
      && At(next.board, to) == Some(Piece(kind, mover))
      && (forall q | InBounds(q) && q != to :: At(next.board, q) == At(s.board, q))
      && (kind in s.captured.Of(mover) ==>
            && |next.captured.Of(mover)| == |s.captured.Of(mover)| - 1
            && multiset(next.captured.Of(mover)) == multiset(s.captured.Of(mover)) - multiset{kind})
      && (kind !in s.captured.Of(mover) ==> next.captured.Of(mover) == s.captured.Of(mover))
      && next.captured.Of(Opponent(mover)) == s.captured.Of(Opponent(mover))
      && next.lastMove == None
  {
    hide InCheck, Winner;
    ApplyDrop(s, Drop(kind, to));
  }

  /** The bookkeeping of every action that changes the state: the other player moves next, the
      turn counter advances only after GOTE's action (or from 0), `isCheck` says whether the next
      player is in check, `winner` is checkForWinner's verdict, `isCheckmate` is its truthiness
      (false when SENTE, the value 0, wins), and `isDraw`/`history` are carried over. */
  lemma ApplyBookkeeping(s: GameState, a: Action)
    requires IsGrid(s.board) && ActionInBounds(a) && Effective(s, a)
    ensures
      var next := Apply(s, Given(a));
      && next.currentPlayer == Opponent(s.currentPlayer)
      && next.turn == (if s.currentPlayer == Gote || s.turn == 0 then s.turn + 1 else s.turn)
      && next.isCheck == InCheck(next.currentPlayer, next.board)
      && next.winner == Winner(next.board, next.currentPlayer, next.captured)
      && (next.isCheckmate <==> next.winner == Some(Gote))
      && next.isDraw == s.isDraw && next.history == s.history
  {
    hide InCheck, Winner;
    if a.Move? {
      ApplyMove(s, a);
    } else {
      ApplyDrop(s, a);
    }
  }

  /** The pieces of a state: those on the board and those in the two hands. */
  function PieceCount(s: GameState): nat
    requires IsGrid(s.board)
  {
    PiecesOnBoard(s.board) + |s.captured.sente| + |s.captured.gote|
  }

  /** No piece is created or destroyed by a move (a capture moves one piece from the board into a
      hand; a move onto its own square banks the moving piece itself) or by a drop of a held type
      on an empty square. */
  lemma ApplyConservesPieces(s: GameState, a: Action)
    requires IsGrid(s.board) && ActionInBounds(a) && Effective(s, a)
    requires a.Drop? ==> At(s.board, a.to) == None && a.pieceType in s.captured.Of(s.currentPlayer)
    ensures PieceCount(Apply(s, Given(a))) == PieceCount(s)
  {
    hide InCheck, Winner;
    var mover := s.currentPlayer;
    var next := Apply(s, Given(a));
    if a.Move? {
      ApplyMove(s, a);
      var b1 := Put(s.board, a.to, Some(Promoted(mover, At(s.board, a.from).value, a.to)));
      CountAfterPut(s.board, a.to, Some(Promoted(mover, At(s.board, a.from).value, a.to)), true);
      CountAfterPut(b1, a.from, None, true);
      assert next.board == Put(b1, a.from, None);
    } else {
      ApplyDrop(s, a);
      CountAfterPut(s.board, a.to, Some(Piece(a.pieceType, mover)), true);
    }
  }

  /** No hand holds a Hen. */
  predicate NoHenInHand(c: Captured) {
    Hen !in c.sente && Hen !in c.gote
  }

  /** Hands never come to hold a Hen: captures are demoted and drops only remove entries. */
  lemma ApplyKeepsHensOutOfHands(s: GameState, received: Received)
    requires IsGrid(s.board)
    requires received.Given? ==> ActionInBounds(received.action)
    requires NoHenInHand(s.captured)
    ensures NoHenInHand(Apply(s, received).captured)
  {
    hide InCheck, Winner;
    if received.Given? && Effective(s, received.action) {
      var a := received.action;
      if a.Move? {
        ApplyMove(s, a);
      } else {
        ApplyDrop(s, a);
      }
    }
  }
}
