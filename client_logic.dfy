/** The client engine (hooks/useGameLogic.ts): the same rules as the server, recomputed inside
    the game hook. Its loops are methods proved equal to the server's specification functions
    where the two engines agree; where they differ (hasAnyValidMove without the drop-mate test,
    the turn counter advancing on every ply) the client has its own specification function and a
    lemma relating it to the server's. The hook's state (`board`, `captured`, `currentPlayer`)
    is passed as parameters. */
module ClientLogic {
  import opened Types
  import opened Lists
  import opened Constants
  import opened GameLogic

  // ---------------------------------------------------------------- cloneDeep

  /** The values cloneDeep walks: primitives, arrays, and objects with their keys in order. */
  datatype JsValue =
    | JsNull
    | JsBool(b: bool)
    | JsNumber(n: int)
    | JsString(s: string)
    | JsArray(items: seq<JsValue>)
    | JsObject(fields: seq<(string, JsValue)>)

  /** cloneDeep: primitives are returned as they are, arrays and objects are rebuilt key by key
      from the clones of their members. The clone is structurally equal to the original. */
  function CloneDeep(v: JsValue): (r: JsValue)
    ensures r == v
    decreases v
  {
    match v
    case JsArray(items) =>
      var cloned := seq(|items|, i requires 0 <= i < |items| => CloneDeep(items[i]));
      assert forall i | 0 <= i < |items| :: cloned[i] == items[i];
      assert cloned == items;
      JsArray(cloned)
    case JsObject(fields) =>
      var cloned := seq(|fields|, i requires 0 <= i < |fields| => (fields[i].0, CloneDeep(fields[i].1)));
      assert forall i | 0 <= i < |fields| :: cloned[i] == fields[i];
      assert cloned == fields;
      JsObject(cloned)
    case _ => v
  }

  // ---------------------------------------------------------------- createInitialState

  /** createInitialState: the initial layout with SENTE to move, the state the server creates
      for SENTE moving first. */
  function ClientInitialState(): (s: GameState)
    ensures s == CreateInitialState()
  {
    GameState(InitialBoard, Captured([], []), Sente, 1, None, None, None, false, false, None)
  }

  // ---------------------------------------------------------------- the rule functions shared with the server

  /** getPieceMoves, written with the row step negated for GOTE (rather than kept for SENTE) and
      the column step kept for both: the server's destinations, in the same order. */
  method GetPieceMoves(piece: Piece, from: Position, currentBoard: Grid) returns (moves: seq<Position>)
    ensures moves == PieceMoves(piece, from, currentBoard)
  {
    hide PieceMoveOffsets;
    moves := [];
    var moveSet := PieceMoveOffsets(piece.kind);
    ghost var f := StepTo(piece, from, currentBoard);
    FlatMapEmpty(f, moveSet);
    for i := 0 to |moveSet|
      invariant moves == FlatMap(f, moveSet[..i])
    {
      FlatMapStep(f, moveSet, i);
      var (dy, dx) := moveSet[i];
      var moveDy := if piece.player == Gote then -dy else dy;
      var moveDx := if piece.player == Gote then dx else dx;
      var to := Position(from.row + moveDy, from.col + moveDx);
      if to.row < 0 || to.row >= BoardRows || to.col < 0 || to.col >= BoardCols {
        continue;
      }
      var destinationPiece := currentBoard[to.row][to.col];
      if destinationPiece.Some? && destinationPiece.value.player == piece.player {
        continue;
      }
      moves := moves + [to];
    }
    assert moveSet[..|moveSet|] == moveSet;
  }

  /** findLionPosition: the server's row-major scan. */
  method FindLionPosition(player: Player, currentBoard: Grid) returns (pos: Option<Position>)
    ensures pos == FindLion(player, currentBoard)
  {
    for r := 0 to BoardRows
      invariant FindLion(player, currentBoard) == FindLionFrom(player, currentBoard, r)
    {
      for c := 0 to BoardCols
        invariant FindLion(player, currentBoard) ==
          match FindLionInRow(player, currentBoard, r, c)
          case Some(p) => Some(p)
          case None => FindLionFrom(player, currentBoard, r + 1)
      {
        var piece := currentBoard[r][c];
        if piece.Some? && piece.value.kind == Lion && piece.value.player == player {
          return Some(Position(r, c));
        }
      }
    }
    return None;
  }

  /** isPositionUnderAttack over the client's getPieceMoves: the server's verdict. */
  method IsPositionUnderAttack(position: Position, attackingPlayer: Player, currentBoard: Grid) returns (attacked: bool)
    ensures attacked == UnderAttack(position, attackingPlayer, currentBoard)
  {
    hide PieceMoves;
    for r := 0 to BoardRows
      invariant forall r', c' | 0 <= r' < r && 0 <= c' < BoardCols ::
        !Attacks(currentBoard, attackingPlayer, Position(r', c'), position)
    {
      for c := 0 to BoardCols
        invariant forall r', c' | 0 <= r' < r && 0 <= c' < BoardCols ::
          !Attacks(currentBoard, attackingPlayer, Position(r', c'), position)
        invariant forall c' | 0 <= c' < c :: !Attacks(currentBoard, attackingPlayer, Position(r, c'), position)
      {
        var piece := currentBoard[r][c];
        if piece.Some? && piece.value.player == attackingPlayer {
          var moves := GetPieceMoves(piece.value, Position(r, c), currentBoard);
          if position in moves {
            assert Attacks(currentBoard, attackingPlayer, Position(r, c), position);
            return true;
          }
        }
      }
    }
    return false;
  }

  /** isKingInCheck over the client's lookups: the server's verdict. */
  method IsKingInCheck(player: Player, currentBoard: Grid) returns (inCheck: bool)
    ensures inCheck == InCheck(player, currentBoard)
  {
    var lionPos := FindLionPosition(player, currentBoard);
    if lionPos.None? {
      return true;
    }
    var opponent := Opponent(player);
    inCheck := IsPositionUnderAttack(lionPos.value, opponent, currentBoard);
  }

  // ---------------------------------------------------------------- hasAnyValidMove

  /** A drop the client accepts: an empty square, not the promotion row for a Chick, and not
      leaving the dropping player in check. There is no drop-mate test. */
  predicate SafeDrop(player: Player, b: Grid, kind: PieceType, pos: Position) {
    && InBounds(pos)
    && At(b, pos) == None
    && !(kind == Chick && pos.row == PromotionRow(player))
    && !InCheck(player, Place(b, pos, Piece(kind, player)))
  }

  /** The client's hasAnyValidMove: some move leaves the player out of check, or some held type
      has a safe drop. */
  ghost predicate ClientCanAct(player: Player, b: Grid, captured: Captured) {
    || (exists from, to :: LegalMove(player, b, from, to))
    || (exists kind, pos :: kind in captured.Of(player) && SafeDrop(player, b, kind, pos))
  }

  /** The inner loop of hasAnyValidMove over one piece's destinations: true at the first that
      leaves the player out of check. */
  method AnySafeDestination(player: Player, currentBoard: Grid, from: Position, moves: seq<Position>)
    returns (found: bool)
    requires InBounds(from) && forall to | to in moves :: InBounds(to)
    ensures found <==> exists j | 0 <= j < |moves| :: !InCheck(player, Relocate(currentBoard, from, moves[j]))
  {
    hide InCheck;
    for i := 0 to |moves|
      invariant forall j | 0 <= j < i :: InCheck(player, Relocate(currentBoard, from, moves[j]))
    {
      var move := moves[i];
      var tempBoard := currentBoard;
      tempBoard := Put(tempBoard, move, At(tempBoard, from));
      tempBoard := Put(tempBoard, from, None);
      var inCheck := IsKingInCheck(player, tempBoard);
      if !inCheck {
        return true;
      }
    }
    return false;
  }

  /** The first half of hasAnyValidMove: the row/column loop over the player's pieces. */
  method AnySafeMove(player: Player, currentBoard: Grid) returns (found: bool)
    ensures found <==> exists from, to :: LegalMove(player, currentBoard, from, to)
  {
    hide PieceMoves, InCheck;
    for r := 0 to BoardRows
      invariant forall from: Position, to: Position | from.row < r :: !LegalMove(player, currentBoard, from, to)
    {
      for c := 0 to BoardCols
        invariant forall from: Position, to: Position | from.row < r || (from.row == r && from.col < c) ::
          !LegalMove(player, currentBoard, from, to)
      {
        var from := Position(r, c);
        var piece := currentBoard[r][c];
        if piece.Some? && piece.value.player == player {
          var moves := GetPieceMoves(piece.value, from, currentBoard);
          PieceMovesInBounds(piece.value, from, currentBoard);
          var safe := AnySafeDestination(player, currentBoard, from, moves);
          if safe {
            var j :| 0 <= j < |moves| && !InCheck(player, Relocate(currentBoard, from, moves[j]));
            assert LegalMove(player, currentBoard, from, moves[j]);
            return true;
          }
        }
      }
    }
    return false;
  }

  /** The second half of hasAnyValidMove: the loop over the distinct types in hand and the empty
      squares, true at the first safe drop. */
  method AnySafeDrop(player: Player, currentBoard: Grid, uniqueCaptured: seq<PieceType>) returns (found: bool)
    ensures found <==> exists kind, pos :: kind in uniqueCaptured && SafeDrop(player, currentBoard, kind, pos)
  {
    hide InCheck;
    for i := 0 to |uniqueCaptured|
      invariant forall kind, pos | kind in uniqueCaptured[..i] :: !SafeDrop(player, currentBoard, kind, pos)
    {
      var pieceType := uniqueCaptured[i];
      assert forall kind | kind in uniqueCaptured[..i + 1] :: kind in uniqueCaptured[..i] || kind == pieceType;
      for r := 0 to BoardRows
        invariant forall kind, pos | kind in uniqueCaptured[..i] :: !SafeDrop(player, currentBoard, kind, pos)
        invariant forall pos: Position | pos.row < r :: !SafeDrop(player, currentBoard, pieceType, pos)
      {
        for c := 0 to BoardCols
          invariant forall kind, pos | kind in uniqueCaptured[..i] :: !SafeDrop(player, currentBoard, kind, pos)
          invariant forall pos: Position | pos.row < r || (pos.row == r && pos.col < c) :: !SafeDrop(player, currentBoard, pieceType, pos)
        {
          if currentBoard[r][c] == None {
            if pieceType == Chick {
              var promotionRow := if player == Sente then 0 else BoardRows - 1;
              if r == promotionRow {
                continue;
              }
            }
            var tempBoard := Place(currentBoard, Position(r, c), Piece(pieceType, player));
            var inCheck := IsKingInCheck(player, tempBoard);
            if !inCheck {
              assert SafeDrop(player, currentBoard, pieceType, Position(r, c));
              return true;
            }
          }
        }
      }
    }
    assert uniqueCaptured[..|uniqueCaptured|] == uniqueCaptured;
    return false;
  }

  /** hasAnyValidMove as the client runs it: true at the first safe move, else at the first safe drop. */
  method HasAnyValidMove(player: Player, currentBoard: Grid, currentCaptured: Captured) returns (has: bool)
    ensures has == ClientCanAct(player, currentBoard, currentCaptured)
  {
    hide LegalMove, SafeDrop;
    has := AnySafeMove(player, currentBoard);
    if has {
      return;
    }
    var uniqueCaptured := Distinct(currentCaptured.Of(player));
    has := AnySafeDrop(player, currentBoard, uniqueCaptured);
  }

  /** The client's hasAnyValidMove holds whenever the server's does, and holds without it exactly
      when the server has no legal action and the player holds a Chick with a safe drop that the
      server rejects as a drop-mate. */
  lemma ClientCanActVersusServer(player: Player, b: Grid, captured: Captured)
    ensures CanAct(player, b, captured) ==> ClientCanAct(player, b, captured)
    ensures ClientCanAct(player, b, captured) && !CanAct(player, b, captured) ==>
      && Chick in captured.Of(player)
      && (forall a :: a !in LegalActions(player, b, captured))
      && exists pos :: SafeDrop(player, b, Chick, pos) && MatingChickDrop(player, b, captured, pos)
    ensures
      && !CanAct(player, b, captured)
      && Chick in captured.Of(player)
      && (exists pos :: SafeDrop(player, b, Chick, pos) && MatingChickDrop(player, b, captured, pos))
      ==>
      ClientCanAct(player, b, captured)
  {
    hide PieceMoves, InCheck, LegalActions, MatingChickDrop;
    if CanAct(player, b, captured) {
      var a := LegalActions(player, b, captured)[0];
      LegalActionsMembership(player, b, captured, a);
      if a.Drop? {
        assert SafeDrop(player, b, a.pieceType, a.to);
      }
    }
    if ClientCanAct(player, b, captured) && !CanAct(player, b, captured) {
      forall a
        ensures a !in LegalActions(player, b, captured)
      {
      }
      if exists from, to :: LegalMove(player, b, from, to) {
        var from, to :| LegalMove(player, b, from, to);
        LegalActionsMembership(player, b, captured, Move(from, to));
        assert false;
      }
      var kind, pos :| kind in captured.Of(player) && SafeDrop(player, b, kind, pos);
      LegalActionsMembership(player, b, captured, Drop(kind, pos));
      assert kind == Chick && MatingChickDrop(player, b, captured, pos);
    }
  }

  // ---------------------------------------------------------------- getValidMovesForPiece, getValidDropsForPiece

  /** getValidMovesForPiece: nothing unless `from` holds one of the player's pieces, otherwise its
      pseudo-legal destinations filtered by the self-check test on a scratch board. */
  function ValidMovesForPiece(board: Grid, currentPlayer: Player, from: Position): seq<Position>
    requires InBounds(from)
  {
    var piece := At(board, from);
    if piece.None? || piece.value.player != currentPlayer then []
    else
      Filter(to => InBounds(to) && !InCheck(currentPlayer, Relocate(board, from, to)), PieceMoves(piece.value, from, board))
  }

  /** The destinations getValidMovesForPiece returns are exactly those of the server's legal moves
      from that square; in particular none unless the square holds one of the player's pieces,
      and none leaving the player in check. */
  lemma ValidMovesForPieceSpec(board: Grid, currentPlayer: Player, from: Position)
    requires InBounds(from)
    ensures !OwnedBy(At(board, from), currentPlayer) ==> ValidMovesForPiece(board, currentPlayer, from) == []
    ensures forall to :: to in ValidMovesForPiece(board, currentPlayer, from) <==> LegalMove(currentPlayer, board, from, to)
  {
    hide PieceMoves, InCheck;
  }

  /** One square's contribution to getValidDropsForPiece. */
  function DropTarget(player: Player, b: Grid, kind: PieceType): Position -> seq<Position> {
    pos => if SafeDrop(player, b, kind, pos) then [pos] else []
  }

  /** getValidDropsForPiece: nothing unless the type is in the player's hand, otherwise the safe
      drop squares in row-major order. */
  function ValidDrops(board: Grid, captured: Captured, currentPlayer: Player, kind: PieceType): seq<Position> {
    if kind !in captured.Of(currentPlayer) then []
    else FlatMap(DropTarget(currentPlayer, board, kind), Squares)
  }

  /** A square is offered for a drop exactly when the type is held and the drop is safe: an empty
      square, not the promotion row for a Chick, not leaving the player in check. */
  lemma ValidDropsMembership(board: Grid, captured: Captured, currentPlayer: Player, kind: PieceType, pos: Position)
    ensures pos in ValidDrops(board, captured, currentPlayer, kind) <==>
      kind in captured.Of(currentPlayer) && SafeDrop(currentPlayer, board, kind, pos)
  {
    hide InCheck;
    if kind in captured.Of(currentPlayer) {
      FlatMapMembership(DropTarget(currentPlayer, board, kind), Squares, pos);
      SquaresInOrder();
      if SafeDrop(currentPlayer, board, kind, pos) {
        SquareIndex(pos);
        assert pos in DropTarget(currentPlayer, board, kind)(Squares[RowMajor(pos)]);
      }
    }
  }

  /** The server accepts a drop exactly when the client offers its square and, for a Chick, the
      drop is not a drop-mate. */
  lemma ValidDropsVersusServer(board: Grid, captured: Captured, currentPlayer: Player, kind: PieceType, pos: Position)
    ensures LegalDrop(currentPlayer, board, captured, kind, pos) <==>
      && pos in ValidDrops(board, captured, currentPlayer, kind)
      && SafeDrop(currentPlayer, board, kind, pos)
      && (kind == Chick ==> !MatingChickDrop(currentPlayer, board, captured, pos))
  {
    hide InCheck, MatingChickDrop;
    ValidDropsMembership(board, captured, currentPlayer, kind, pos);
  }

  /** The three tests of a safe drop on a board square, one at a time. */
  lemma SafeDropCases(player: Player, b: Grid, kind: PieceType, pos: Position)
    requires InBounds(pos)
    ensures At(b, pos) != None ==> !SafeDrop(player, b, kind, pos)
    ensures At(b, pos) == None && kind == Chick && pos.row == PromotionRow(player) ==> !SafeDrop(player, b, kind, pos)
    ensures At(b, pos) == None && !(kind == Chick && pos.row == PromotionRow(player)) ==>
      (SafeDrop(player, b, kind, pos) <==> !InCheck(player, Place(b, pos, Piece(kind, player))))
  {
    hide InCheck;
  }

  /** getValidDropsForPiece as the client runs it: the hand test, then the row/column loop. */
  method GetValidDropsForPiece(board: Grid, captured: Captured, currentPlayer: Player, pieceType: PieceType)
    returns (validDrops: seq<Position>)
    ensures validDrops == ValidDrops(board, captured, currentPlayer, pieceType)
  {
    if pieceType !in captured.Of(currentPlayer) {
      return [];
    }
    validDrops := SafeDropSquares(board, currentPlayer, pieceType);
  }

  /** getValidDropsForPiece's row/column loop: the empty squares, the Chick's promotion row
      skipped, each drop tried on a scratch board. */
  method SafeDropSquares(board: Grid, currentPlayer: Player, pieceType: PieceType) returns (validDrops: seq<Position>)
    ensures validDrops == FlatMap(DropTarget(currentPlayer, board, pieceType), Squares)
  {
    ghost var f := DropTarget(currentPlayer, board, pieceType);
    SquaresInOrder();
    FlatMapEmpty(f, Squares);
    hide PieceMoves, InCheck, SafeDrop, Squares, FlatMap;
    validDrops := [];
    for r := 0 to BoardRows
      invariant validDrops == FlatMap(f, Squares[..r * BoardCols])
    {
      for c := 0 to BoardCols
        invariant validDrops == FlatMap(f, Squares[..r * BoardCols + c])
      {
        var pos := Position(r, c);
        SquareIndex(pos);
        FlatMapStep(f, Squares, r * BoardCols + c);
        SafeDropCases(currentPlayer, board, pieceType, pos);
        if board[r][c] == None {
          if pieceType == Chick {
            var promotionRow := if currentPlayer == Sente then 0 else BoardRows - 1;
            if r == promotionRow {
              continue;
            }
          }
          var tempBoard := Place(board, pos, Piece(pieceType, currentPlayer));
          var inCheck := IsKingInCheck(currentPlayer, tempBoard);
          if !inCheck {
            validDrops := validDrops + [pos];
          }
        }
      }
    }
    assert Squares[..BoardRows * BoardCols] == Squares;
  }

  // ---------------------------------------------------------------- checkForWinner

  /** The client's checkForWinner: the server's rules in the server's order, the last one judged
      by the client's hasAnyValidMove. */
  ghost function ClientWinner(b: Grid, nextPlayer: Player, captured: Captured): Option<Player> {
    var senteLionPos := FindLion(Sente, b);
    var goteLionPos := FindLion(Gote, b);
    if senteLionPos.None? then Some(Gote)
    else if goteLionPos.None? then Some(Sente)
    else if senteLionPos.value.row == 0 && !UnderAttack(senteLionPos.value, Gote, b) then Some(Sente)
    else if goteLionPos.value.row == BoardRows - 1 && !UnderAttack(goteLionPos.value, Sente, b) then Some(Gote)
    else if !ClientCanAct(nextPlayer, b, captured) then Some(Opponent(nextPlayer))
    else None
  }

  /** The two verdicts agree whenever the player to move has a legal action, and differ only
      when the server declares that player lost (no legal action) while the client, which
      accepts drop-mates, declares no winner. */
  lemma ClientWinnerVersusServer(b: Grid, nextPlayer: Player, captured: Captured)
    ensures CanAct(nextPlayer, b, captured) ==> ClientWinner(b, nextPlayer, captured) == Winner(b, nextPlayer, captured)
    ensures ClientWinner(b, nextPlayer, captured) != Winner(b, nextPlayer, captured) ==>
      && Winner(b, nextPlayer, captured) == Some(Opponent(nextPlayer))
      && ClientWinner(b, nextPlayer, captured) == None
      && !CanAct(nextPlayer, b, captured)
      && exists pos :: SafeDrop(nextPlayer, b, Chick, pos) && MatingChickDrop(nextPlayer, b, captured, pos)
  {
    hide PieceMoves, InCheck, LegalActions, MatingChickDrop, UnderAttack, FindLion, SafeDrop;
    ClientCanActVersusServer(nextPlayer, b, captured);
  }

  /** checkForWinner as the client runs it: the GOTE Lion is looked up only when the SENTE Lion is found. */
  method CheckForWinner(currentBoard: Grid, nextPlayer: Player, currentCaptured: Captured) returns (winner: Option<Player>)
    ensures winner == ClientWinner(currentBoard, nextPlayer, currentCaptured)
  {
    hide UnderAttack, ClientCanAct;
    var senteLionPos := FindLionPosition(Sente, currentBoard);
    if senteLionPos.None? {
      return Some(Gote);
    }
    var goteLionPos := FindLionPosition(Gote, currentBoard);
    if goteLionPos.None? {
      return Some(Sente);
    }
    var sentePromotionRow := 0;
    if senteLionPos.value.row == sentePromotionRow {
      var attacked := IsPositionUnderAttack(senteLionPos.value, Gote, currentBoard);
      if !attacked {
        return Some(Sente);
      }
    }
    var gotePromotionRow := BoardRows - 1;
    if goteLionPos.value.row == gotePromotionRow {
      var attacked := IsPositionUnderAttack(goteLionPos.value, Sente, currentBoard);
      if !attacked {
        return Some(Gote);
      }
    }
    var has := HasAnyValidMove(nextPlayer, currentBoard, currentCaptured);
    if !has {
      return Some(Opponent(nextPlayer));
    }
    return None;
  }

  // ---------------------------------------------------------------- applyAction

  /** The client's bookkeeping after an action: the turn passes, the counter advances on every
      action, and the check and winner flags are recomputed with the client's rules. */
  ghost function ClientSettle(s: GameState, board: Grid, captured: Captured, lastMove: Option<Action>): GameState {
    var nextPlayer := Opponent(s.currentPlayer);
    var winner := ClientWinner(board, nextPlayer, captured);
    s.(board := board, captured := captured, currentPlayer := nextPlayer,
       turn := s.turn + 1,
       lastMove := lastMove,
       isCheck := InCheck(nextPlayer, board),
       winner := winner,
       isCheckmate := Truthy(winner))
  }

  /** The client's applyAction as a value: the state itself for a move from an empty square,
      otherwise the server's board and hands settled with the client's bookkeeping. */
  ghost function ClientApply(s: GameState, a: Action): (next: GameState)
    requires IsGrid(s.board) && ActionInBounds(a)
    ensures IsGrid(next.board)
  {
    if !Effective(s, a) then s
    else
      var mover := s.currentPlayer;
      match a
      case Move(from, to) =>
        ClientSettle(s, BoardAfterMove(s.board, mover, from, to), CapturedAfterMove(s.board, s.captured, mover, to), Some(a))
      case Drop(kind, to) =>
        ClientSettle(s, Place(s.board, to, Piece(kind, mover)), CapturedAfterDrop(s.captured, mover, kind), None)
  }

  /** The client and the server agree on an action's board, hands, next player, last move,
      check flag and untouched fields; the client advances the counter on every effective
      action; and the winners differ only where the server's drop-mate rule leaves the player
      to move without a legal action. */
  lemma ClientApplyVersusServer(s: GameState, a: Action)
    requires IsGrid(s.board) && ActionInBounds(a)
    ensures var c, v := ClientApply(s, a), Apply(s, Given(a));
      && c.board == v.board && c.captured == v.captured && c.currentPlayer == v.currentPlayer
      && c.lastMove == v.lastMove && c.isCheck == v.isCheck
      && c.isDraw == v.isDraw && c.history == v.history
      && (!Effective(s, a) ==> c == s && v == s)
      && (Effective(s, a) ==> c.turn == s.turn + 1)
      && (Effective(s, a) && CanAct(v.currentPlayer, v.board, v.captured) ==> c == v.(turn := s.turn + 1))
      && (c.winner != v.winner ==> v.winner == Some(Opponent(v.currentPlayer)) && c.winner == None)
  {
    hide InCheck, Winner, ClientWinner;
    if Effective(s, a) {
      match a
      case Move(from, to) =>
        ApplyMove(s, a);
        ClientWinnerVersusServer(BoardAfterMove(s.board, s.currentPlayer, from, to),
          Opponent(s.currentPlayer), CapturedAfterMove(s.board, s.captured, s.currentPlayer, to));
      case Drop(kind, to) =>
        ApplyDrop(s, a);
        ClientWinnerVersusServer(Place(s.board, to, Piece(kind, s.currentPlayer)),
          Opponent(s.currentPlayer), CapturedAfterDrop(s.captured, s.currentPlayer, kind));
    } else {
      ApplyIgnores(s, Given(a));
    }
  }

  /** A move from an empty square leaves the client's state as it is. */
  lemma ClientApplyIgnores(s: GameState, a: Action)
    requires IsGrid(s.board) && ActionInBounds(a) && !Effective(s, a)
    ensures ClientApply(s, a) == s
  {
  }

  /** A move from an occupied square: the server's board and hands, settled by the client. */
  lemma ClientApplyMove(s: GameState, move: Action)
    requires IsGrid(s.board) && move.Move? && ActionInBounds(move) && At(s.board, move.from).Some?
    ensures ClientApply(s, move) ==
      ClientSettle(s, BoardAfterMove(s.board, s.currentPlayer, move.from, move.to),
        CapturedAfterMove(s.board, s.captured, s.currentPlayer, move.to), Some(move))
  {
    hide ClientSettle;
  }

  /** A drop: the server's board and hands, settled by the client with no last move. */
  lemma ClientApplyDrop(s: GameState, drop: Action)
    requires IsGrid(s.board) && drop.Drop? && ActionInBounds(drop)
    ensures ClientApply(s, drop) ==
      ClientSettle(s, Place(s.board, drop.to, Piece(drop.pieceType, s.currentPlayer)),
        CapturedAfterDrop(s.captured, s.currentPlayer, drop.pieceType), None)
  {
    hide ClientSettle;
  }

  /** The bookkeeping overwrites the board, hands and last move of the state it starts from. */
  lemma ClientSettleOverwrites(s: GameState, board: Grid, captured: Captured, lastMove: Option<Action>)
    ensures ClientSettle(s.(board := board, captured := captured, lastMove := lastMove), board, captured, lastMove) ==
      ClientSettle(s, board, captured, lastMove)
  {
    hide ClientWinner, InCheck;
  }

  /** The closing bookkeeping of the client's applyAction on the clone. */
  method FinishTurn(newGameState: GameState, currentPlayer: Player) returns (next: GameState)
    requires IsGrid(newGameState.board) && newGameState.currentPlayer == currentPlayer
    ensures next == ClientSettle(newGameState, newGameState.board, newGameState.captured, newGameState.lastMove)
  {
    hide InCheck, ClientWinner;
    next := newGameState;
    var nextPlayer := Opponent(currentPlayer);
    next := next.(currentPlayer := nextPlayer);
    next := next.(turn := next.turn + 1);
    var isCheck := IsKingInCheck(nextPlayer, next.board);
    next := next.(isCheck := isCheck);
    var winner := CheckForWinner(next.board, nextPlayer, next.captured);
    next := next.(winner := winner);
    next := next.(isCheckmate := Truthy(next.winner));
  }

  /** applyAction as the client runs it on a clone of the hook's state; the returned state is
      what setGameState receives, or the state itself when the move's source square is empty. */
  method ApplyAction(gameState: GameState, action: Action) returns (next: GameState)
    requires IsGrid(gameState.board) && ActionInBounds(action)
    ensures next == ClientApply(gameState, action)
  {
    hide InCheck, ClientWinner, ClientApply, ClientSettle;
    var newGameState := gameState;
    var currentPlayer := gameState.currentPlayer;
    var board: Grid := newGameState.board;
    var captured := newGameState.captured;
    var lastMove: Option<Action>;
    if action.Move? {
      if board[action.from.row][action.from.col].None? {
        ClientApplyIgnores(gameState, action);
        return gameState;
      }
      board, captured := MovePiece(board, captured, currentPlayer, action);
      lastMove := Some(action);
      ClientApplyMove(gameState, action);
    } else {
      board, captured := DropPiece(board, captured, currentPlayer, action);
      lastMove := None;
      ClientApplyDrop(gameState, action);
    }
    newGameState := newGameState.(board := board, captured := captured, lastMove := lastMove);
    next := FinishTurn(newGameState, currentPlayer);
    ClientSettleOverwrites(gameState, board, captured, lastMove);
  }

  // ---------------------------------------------------------------- a game played on both engines

  /** Every action of the list names on-board positions. */
  predicate AllInBounds(actions: seq<Action>) {
    forall i | 0 <= i < |actions| :: ActionInBounds(actions[i])
  }

  /** The state after the server applies the actions in turn. */
  ghost function ServerRun(s: GameState, actions: seq<Action>): (r: GameState)
    requires IsGrid(s.board) && AllInBounds(actions)
    ensures IsGrid(r.board)
    decreases |actions|
  {
    if actions == [] then s else ServerRun(Apply(s, Given(actions[0])), actions[1..])
  }

  /** The state after the client applies the actions in turn. */
  ghost function ClientRun(s: GameState, actions: seq<Action>): (r: GameState)
    requires IsGrid(s.board) && AllInBounds(actions)
    ensures IsGrid(r.board)
    decreases |actions|
  {
    if actions == [] then s else ClientRun(ClientApply(s, actions[0]), actions[1..])
  }

  /** Every action of the list, applied by the server in turn, moves a piece or drops one. */
  ghost predicate AllEffective(s: GameState, actions: seq<Action>)
    requires IsGrid(s.board) && AllInBounds(actions)
    decreases |actions|
  {
    actions == [] || (Effective(s, actions[0]) && AllEffective(Apply(s, Given(actions[0])), actions[1..]))
  }

  /** The parts of a state on which the two engines agree. */
  predicate SameGame(c: GameState, v: GameState) {
    && c.board == v.board && c.captured == v.captured && c.currentPlayer == v.currentPlayer
    && c.lastMove == v.lastMove && c.isCheck == v.isCheck
  }

  /** How many of `n` plies, alternating from `first`, are GOTE's. */
  function GotePlies(first: Player, n: nat): nat {
    if first == Sente then n / 2 else (n + 1) / 2
  }

  /** One more ply adds one to GOTE's count exactly when GOTE plays it. */
  lemma GotePliesStep(first: Player, n: nat)
    ensures GotePlies(first, n + 1) == GotePlies(Opponent(first), n) + (if first == Gote then 1 else 0)
    ensures (n + 1) % 2 == 0 <==> n % 2 == 1
    ensures Opponent(Opponent(first)) == first
  {
  }

  /** The server's next state depends on the board, the hands and the player to move alone
      for the parts the engines agree on. */
  lemma ApplySameGame(c: GameState, v: GameState, a: Action)
    requires IsGrid(c.board) && IsGrid(v.board) && ActionInBounds(a) && SameGame(c, v)
    ensures Effective(c, a) == Effective(v, a)
    ensures SameGame(Apply(c, Given(a)), Apply(v, Given(a)))
  {
    hide InCheck, Winner, Apply;
    if !Effective(c, a) {
      ApplyIgnores(c, Given(a));
      ApplyIgnores(v, Given(a));
    } else if a.Move? {
      ApplyMove(c, a);
      ApplyMove(v, a);
    } else {
      ApplyDrop(c, a);
      ApplyDrop(v, a);
    }
  }

  /** One effective server action passes the turn and advances the counter after a GOTE action. */
  lemma ServerTurnStep(v: GameState, a: Action)
    requires IsGrid(v.board) && ActionInBounds(a) && Effective(v, a) && v.turn > 0
    ensures Apply(v, Given(a)).currentPlayer == Opponent(v.currentPlayer)
    ensures Apply(v, Given(a)).turn == if v.currentPlayer == Gote then v.turn + 1 else v.turn
  {
    hide InCheck, Winner;
  }

  /** Dropping the first action keeps every remaining one on the board. */
  lemma RestInBounds(actions: seq<Action>)
    requires AllInBounds(actions) && actions != []
    ensures ActionInBounds(actions[0]) && AllInBounds(actions[1..])
  {
    forall i | 0 <= i < |actions| - 1
      ensures ActionInBounds(actions[1..][i])
    {
      assert actions[1..][i] == actions[i + 1];
    }
  }

  /** One step of each run, and of the effectiveness condition. */
  lemma RunStep(c: GameState, v: GameState, actions: seq<Action>)
    requires IsGrid(c.board) && IsGrid(v.board) && AllInBounds(actions) && actions != []
    ensures ActionInBounds(actions[0]) && AllInBounds(actions[1..])
    ensures ClientRun(c, actions) == ClientRun(ClientApply(c, actions[0]), actions[1..])
    ensures ServerRun(v, actions) == ServerRun(Apply(v, Given(actions[0])), actions[1..])
    ensures AllEffective(v, actions) <==> Effective(v, actions[0]) && AllEffective(Apply(v, Given(actions[0])), actions[1..])
  {
    hide Apply, ClientApply;
    RestInBounds(actions);
  }

  /** Played from states that agree, the same sequence of effective actions leads the two
      engines to states that agree, and the client's counter has advanced once per action. */
  lemma {:induction false} RunsAgree(c: GameState, v: GameState, actions: seq<Action>)
    requires IsGrid(c.board) && IsGrid(v.board) && AllInBounds(actions)
    requires SameGame(c, v) && AllEffective(v, actions)
    ensures SameGame(ClientRun(c, actions), ServerRun(v, actions))
    ensures ClientRun(c, actions).turn == c.turn + |actions|
    decreases |actions|
  {
    if actions != [] {
      hide InCheck, Winner, ClientWinner, Apply, ClientApply, ClientRun, ServerRun, AllEffective;
      var a := actions[0];
      var rest := actions[1..];
      RunStep(c, v, actions);
      var c' := ClientApply(c, a);
      var v' := Apply(v, Given(a));
      ClientApplyVersusServer(c, a);
      ApplySameGame(c, v, a);
      RunsAgree(c', v', rest);
    }
  }

  /** Along effective server actions the turn alternates and the counter advances once per
      GOTE action. */
  lemma {:induction false} ServerRunTurns(v: GameState, actions: seq<Action>)
    requires IsGrid(v.board) && AllInBounds(actions) && v.turn > 0 && AllEffective(v, actions)
    ensures ServerRun(v, actions).turn == v.turn + GotePlies(v.currentPlayer, |actions|)
    ensures ServerRun(v, actions).currentPlayer ==
      if |actions| % 2 == 0 then v.currentPlayer else Opponent(v.currentPlayer)
    decreases |actions|
  {
    if actions != [] {
      hide InCheck, Winner, Apply, ServerRun, AllEffective, GotePlies;
      var a := actions[0];
      var rest := actions[1..];
      RunStep(v, v, actions);
      var v' := Apply(v, Given(a));
      ServerTurnStep(v, a);
      GotePliesStep(v.currentPlayer, |rest|);
      ServerRunTurns(v', rest);
    }
  }

  /** From the opening position with SENTE to move, after `n` effective actions the board,
      hands, player to move, last move and check flag agree on both engines, the client shows
      turn 1 + n and the server shows turn 1 + n / 2. */
  lemma TurnCountsFromStart(actions: seq<Action>)
    requires AllInBounds(actions) && AllEffective(CreateInitialState(), actions)
    ensures var c, v := ClientRun(ClientInitialState(), actions), ServerRun(CreateInitialState(), actions);
      && SameGame(c, v)
      && c.turn == 1 + |actions|
      && v.turn == 1 + |actions| / 2
      && v.currentPlayer == if |actions| % 2 == 0 then Sente else Gote
  {
    var s := ClientInitialState();
    RunsAgree(s, s, actions);
    ServerRunTurns(s, actions);
  }
}
