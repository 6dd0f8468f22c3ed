/** The simple AI opponent: every pseudo-legal action of the player to move (board moves without
    the self-check test, drops on empty squares), and a choice of one of them. */
module SimpleAi {
  import opened Types
  import opened Lists
  import opened Constants
  import opened GameLogic

  // ---------------------------------------------------------------- the list of possible actions

  /** The moves from `from` to each destination, in order. */
  function MoveTo(from: Position): Position -> seq<Action> {
    to => [Move(from, to)]
  }

  /** The moves of the piece on `from`, if it is the player's: one per destination of getPotentialMovesForPiece. */
  function PotentialFrom(player: Player, b: Grid): Position -> seq<Action> {
    from => if InBounds(from) && OwnedBy(At(b, from), player) then FlatMap(MoveTo(from), PieceMoves(At(b, from).value, from, b)) else []
  }

  /** The board moves in row-major order of their source square. */
  function PotentialMoves(player: Player, b: Grid): seq<Action> {
    FlatMap(PotentialFrom(player, b), Squares)
  }

  /** A square the AI considers for a drop of `kind`: empty, and not the promotion row for a Chick. */
  predicate DropSquare(player: Player, b: Grid, kind: PieceType, pos: Position) {
    && InBounds(pos)
    && At(b, pos) == None
    && !(kind == Chick && pos.row == PromotionRow(player))
  }

  function DropTo(player: Player, b: Grid, kind: PieceType): Position -> seq<Action> {
    pos => if DropSquare(player, b, kind, pos) then [Drop(kind, pos)] else []
  }

  /** The drops of one type, in row-major order of the target square. */
  function DropsOfType(player: Player, b: Grid): PieceType -> seq<Action> {
    kind => FlatMap(DropTo(player, b, kind), Squares)
  }

  /** The drops for each distinct type in the hand, in the order `[...new Set(hand)]` lists them. */
  function PotentialDrops(player: Player, b: Grid, hand: seq<PieceType>): seq<Action> {
    FlatMap(DropsOfType(player, b), Distinct(hand))
  }

  /** getAllPossibleActions: the board moves, then the drops. */
  function PossibleActions(s: GameState): seq<Action>
    requires IsGrid(s.board)
  {
    PotentialMoves(s.currentPlayer, s.board) + PotentialDrops(s.currentPlayer, s.board, s.captured.Of(s.currentPlayer))
  }

  // ---------------------------------------------------------------- what the list holds

  /** The moves from one square are exactly the piece's destinations, if the piece is the player's. */
  lemma PotentialFromMembership(player: Player, b: Grid, from: Position, a: Action)
    ensures a in PotentialFrom(player, b)(from) <==>
      a.Move? && a.from == from && InBounds(from) && OwnedBy(At(b, from), player) && a.to in PieceMoves(At(b, from).value, from, b)
  {
    hide PieceMoves;
    if InBounds(from) && OwnedBy(At(b, from), player) {
      var tos := PieceMoves(At(b, from).value, from, b);
      FlatMapMembership(MoveTo(from), tos, a);
      if a.Move? && a.from == from && a.to in tos {
        var i :| 0 <= i < |tos| && tos[i] == a.to;
        assert a in MoveTo(from)(tos[i]);
      }
    }
  }

  /** A board move is listed exactly when it starts on one of the player's pieces and goes to one
      of that piece's destinations. */
  lemma PotentialMovesMembership(player: Player, b: Grid, a: Action)
    ensures a in PotentialMoves(player, b) <==>
      a.Move? && InBounds(a.from) && OwnedBy(At(b, a.from), player) && a.to in PieceMoves(At(b, a.from).value, a.from, b)
  {
    hide PieceMoves, PotentialFrom;
    FlatMapMembership(PotentialFrom(player, b), Squares, a);
    SquaresInOrder();
    if a in PotentialMoves(player, b) {
      var i :| 0 <= i < |Squares| && a in PotentialFrom(player, b)(Squares[i]);
      PotentialFromMembership(player, b, Squares[i], a);
    }
    if a.Move? && InBounds(a.from) && OwnedBy(At(b, a.from), player) && a.to in PieceMoves(At(b, a.from).value, a.from, b) {
      SquareIndex(a.from);
      PotentialFromMembership(player, b, a.from, a);
      assert a in PotentialFrom(player, b)(Squares[RowMajor(a.from)]);
    }
  }

  /** The drops of one type are exactly those on the squares the AI considers. */
  lemma DropsOfTypeMembership(player: Player, b: Grid, kind: PieceType, a: Action)
    ensures a in DropsOfType(player, b)(kind) <==> a.Drop? && a.pieceType == kind && DropSquare(player, b, kind, a.to)
  {
    FlatMapMembership(DropTo(player, b, kind), Squares, a);
    SquaresInOrder();
    if a.Drop? && a.pieceType == kind && DropSquare(player, b, kind, a.to) {
      SquareIndex(a.to);
      assert a in DropTo(player, b, kind)(Squares[RowMajor(a.to)]);
    }
  }

  /** A drop is listed exactly when its type is in the hand and its square is one the AI considers. */
  lemma PotentialDropsMembership(player: Player, b: Grid, hand: seq<PieceType>, a: Action)
    ensures a in PotentialDrops(player, b, hand) <==> a.Drop? && a.pieceType in hand && DropSquare(player, b, a.pieceType, a.to)
  {
    hide DropsOfType, DropSquare;
    var kinds := Distinct(hand);
    FlatMapMembership(DropsOfType(player, b), kinds, a);
    if a in PotentialDrops(player, b, hand) {
      var i :| 0 <= i < |kinds| && a in DropsOfType(player, b)(kinds[i]);
      DropsOfTypeMembership(player, b, kinds[i], a);
    }
    if a.Drop? && a.pieceType in hand && DropSquare(player, b, a.pieceType, a.to) {
      var i :| 0 <= i < |kinds| && kinds[i] == a.pieceType;
      DropsOfTypeMembership(player, b, kinds[i], a);
    }
  }

  /** Every listed move starts on a piece of the player to move and ends on the board, on a square
      not holding one of that player's pieces, one step of the piece's table away (the row step
      reversed for GOTE); every listed drop puts a type from the player's hand on an empty square,
      never a Chick on the player's promotion row; and every such move and drop is listed. */
  lemma PossibleActionsMembership(s: GameState, a: Action)
    requires IsGrid(s.board)
    ensures var p, b := s.currentPlayer, s.board;
      a in PossibleActions(s) <==>
        || (a.Move? && InBounds(a.from) && OwnedBy(At(b, a.from), p) && InBounds(a.to) && !OwnedBy(At(b, a.to), p)
            && exists d | d in PieceMoveOffsets(At(b, a.from).value.kind) ::
                 a.to == Position(a.from.row + (if p == Sente then d.0 else -d.0), a.from.col + d.1))
        || (a.Drop? && a.pieceType in s.captured.Of(p) && InBounds(a.to) && At(b, a.to) == None
            && !(a.pieceType == Chick && a.to.row == PromotionRow(p)))
  {
    hide PieceMoves, PotentialMoves, PotentialDrops;
    var p, b := s.currentPlayer, s.board;
    PotentialMovesMembership(p, b, a);
    PotentialDropsMembership(p, b, s.captured.Of(p), a);
    if a.Move? && InBounds(a.from) && OwnedBy(At(b, a.from), p) {
      PieceMovesMembership(At(b, a.from).value, a.from, b, a.to);
    }
  }

  /** The AI omits only the self-check and drop-mate tests: every action the server accepts is in
      its list, so the list is non-empty whenever the player to move has a legal action. */
  lemma LegalActionsArePossible(s: GameState)
    requires IsGrid(s.board)
    ensures forall a | a in LegalActions(s.currentPlayer, s.board, s.captured) :: a in PossibleActions(s)
    ensures CanAct(s.currentPlayer, s.board, s.captured) ==> |PossibleActions(s)| > 0
  {
    hide PieceMoves, InCheck, LegalActions, MatingChickDrop, PotentialMoves, PotentialDrops;
    var p, b := s.currentPlayer, s.board;
    forall a | a in LegalActions(p, b, s.captured)
      ensures a in PossibleActions(s)
    {
      LegalActionsMembership(p, b, s.captured, a);
      PotentialMovesMembership(p, b, a);
      PotentialDropsMembership(p, b, s.captured.Of(p), a);
    }
    if CanAct(p, b, s.captured) {
      var a := LegalActions(p, b, s.captured)[0];
      assert a in PossibleActions(s);
    }
  }

  /** The board moves, in row-major order of their source square. */
  lemma PotentialMovesOrdered(p: Player, b: Grid)
    ensures var moves := PotentialMoves(p, b);
      && (forall i | 0 <= i < |moves| :: moves[i].Move?)
      && (forall i, j | 0 <= i < j < |moves| :: RowMajor(moves[i].from) <= RowMajor(moves[j].from))
  {
    hide PieceMoves, PotentialFrom;
    var moves := PotentialMoves(p, b);
    SquaresInOrder();
    var key := (a: Action) => if a.Move? then RowMajor(a.from) else 0;
    forall i | 0 <= i < |Squares|
      ensures forall y | y in PotentialFrom(p, b)(Squares[i]) :: key(y) == RowMajor(Squares[i])
    {
      forall y | y in PotentialFrom(p, b)(Squares[i])
        ensures key(y) == RowMajor(Squares[i])
      {
        PotentialFromMembership(p, b, Squares[i], y);
      }
    }
    FlatMapOrdered(PotentialFrom(p, b), Squares, RowMajor, key);
    hide PotentialMoves;
    forall i | 0 <= i < |moves|
      ensures moves[i].Move?
    {
      PotentialMovesMembership(p, b, moves[i]);
    }
  }

  /** No drop is listed twice: the types are distinct and each type's squares are. */
  lemma PotentialDropsNoRepeats(p: Player, b: Grid, hand: seq<PieceType>)
    ensures var drops := PotentialDrops(p, b, hand);
      && (forall i | 0 <= i < |drops| :: drops[i].Drop?)
      && (forall i, j | 0 <= i < j < |drops| :: drops[i] != drops[j])
  {
    SquaresInOrder();
    var kinds := Distinct(hand);
    forall k | 0 <= k < |kinds|
      ensures forall m, n | 0 <= m < n < |DropsOfType(p, b)(kinds[k])| :: DropsOfType(p, b)(kinds[k])[m] != DropsOfType(p, b)(kinds[k])[n]
    {
      FlatMapNoRepeats(DropTo(p, b, kinds[k]), Squares, (a: Action) => a.to);
    }
    var tag := (a: Action) => if a.Drop? then a.pieceType else Lion;
    forall k | 0 <= k < |kinds|
      ensures forall y | y in DropsOfType(p, b)(kinds[k]) :: tag(y) == kinds[k]
    {
      forall y | y in DropsOfType(p, b)(kinds[k])
        ensures tag(y) == kinds[k]
      {
        DropsOfTypeMembership(p, b, kinds[k], y);
      }
    }
    hide DropsOfType;
    FlatMapNoRepeats(DropsOfType(p, b), kinds, tag);
    var drops := PotentialDrops(p, b, hand);
    hide PotentialDrops;
    forall i | 0 <= i < |drops|
      ensures drops[i].Drop?
    {
      PotentialDropsMembership(p, b, hand, drops[i]);
    }
  }

  /** Ordered moves followed by distinct drops keep both properties in the concatenation. */
  lemma MovesThenDrops(moves: seq<Action>, drops: seq<Action>)
    requires forall i | 0 <= i < |moves| :: moves[i].Move?
    requires forall i, j | 0 <= i < j < |moves| :: RowMajor(moves[i].from) <= RowMajor(moves[j].from)
    requires forall i | 0 <= i < |drops| :: drops[i].Drop?
    requires forall i, j | 0 <= i < j < |drops| :: drops[i] != drops[j]
    ensures var acts := moves + drops;
      && (forall i, j | 0 <= i < j < |acts| && acts[j].Move? :: acts[i].Move? && RowMajor(acts[i].from) <= RowMajor(acts[j].from))
      && (forall i, j | 0 <= i < j < |acts| && acts[i].Drop? :: acts[i] != acts[j])
  {
    var acts := moves + drops;
    assert forall k | 0 <= k < |moves| :: acts[k] == moves[k];
    assert forall k | |moves| <= k < |acts| :: acts[k] == drops[k - |moves|];
  }

  /** The board moves come before all drops and in row-major order of their source square, and no
      drop is listed twice. */
  lemma PossibleActionsOrder(s: GameState)
    requires IsGrid(s.board)
    ensures var acts := PossibleActions(s);
      && (forall i, j | 0 <= i < j < |acts| && acts[j].Move? :: acts[i].Move? && RowMajor(acts[i].from) <= RowMajor(acts[j].from))
      && (forall i, j | 0 <= i < j < |acts| && acts[i].Drop? :: acts[i] != acts[j])
  {
    var p, b := s.currentPlayer, s.board;
    var moves := PotentialMoves(p, b);
    var drops := PotentialDrops(p, b, s.captured.Of(p));
    var acts := PossibleActions(s);
    assert acts == moves + drops;
    hide PotentialMoves, PotentialDrops, PossibleActions;
    PotentialMovesOrdered(p, b);
    PotentialDropsNoRepeats(p, b, s.captured.Of(p));
    MovesThenDrops(moves, drops);
  }

  // ---------------------------------------------------------------- the service as it runs

  /** getPotentialMovesForPiece: the piece's table of steps, the row step reversed for GOTE, each
      destination kept when it is on the board and not holding one of the piece owner's pieces. */
  method GetPotentialMovesForPiece(piece: Piece, from: Position, board: Grid) returns (moves: seq<Position>)
    ensures moves == PieceMoves(piece, from, board)
  {
    hide PieceMoveOffsets;
    var moveSet := PieceMoveOffsets(piece.kind);
    ghost var f := StepTo(piece, from, board);
    FlatMapEmpty(f, moveSet);
    moves := [];
    for i := 0 to |moveSet|
      invariant moves == FlatMap(f, moveSet[..i])
    {
      FlatMapStep(f, moveSet, i);
      var (dy, dx) := moveSet[i];
      var moveDy := if piece.player == Gote then -dy else dy;
      var moveDx := if piece.player == Gote then dx else dx;
      var to := Position(from.row + moveDy, from.col + moveDx);
      if to.row < 0 || to.row >= BoardRows || to.col < 0 || to.col >= BoardCols {
        continue;
      }
      var destinationPiece := board[to.row][to.col];
      if destinationPiece.Some? && destinationPiece.value.player == piece.player {
        continue;
      }
      moves := moves + [to];
    }
    assert moveSet[..|moveSet|] == moveSet;
  }

  /** The forEach that pushes one move per destination of the piece on `from`. */
  method PushMoves(actions: seq<Action>, from: Position, moves: seq<Position>) returns (pushed: seq<Action>)
    ensures pushed == actions + FlatMap(MoveTo(from), moves)
  {
    ghost var g := MoveTo(from);
    FlatMapEmpty(g, moves);
    pushed := actions;
    for i := 0 to |moves|
      invariant pushed == actions + FlatMap(g, moves[..i])
    {
      FlatMapStep(g, moves, i);
      pushed := pushed + [Move(from, moves[i])];
    }
    assert moves[..|moves|] == moves;
  }

  /** getAllPossibleActions' row/column loop over the player's pieces. */
  method BoardMoves(board: Grid, currentPlayer: Player) returns (actions: seq<Action>)
    ensures actions == PotentialMoves(currentPlayer, board)
  {
    ghost var f := PotentialFrom(currentPlayer, board);
    SquaresInOrder();
    FlatMapEmpty(f, Squares);
    hide PieceMoves, Squares, FlatMap;
    actions := [];
    for r := 0 to BoardRows
      invariant actions == FlatMap(f, Squares[..r * BoardCols])
    {
      for c := 0 to BoardCols
        invariant actions == FlatMap(f, Squares[..r * BoardCols + c])
      {
        var pos := Position(r, c);
        SquareIndex(pos);
        FlatMapStep(f, Squares, r * BoardCols + c);
        var piece := board[r][c];
        if piece.Some? && piece.value.player == currentPlayer {
          var moves := GetPotentialMovesForPiece(piece.value, pos, board);
          actions := PushMoves(actions, pos, moves);
        }
      }
    }
    assert Squares[..BoardRows * BoardCols] == Squares;
  }

  /** The forEach callback for one type: its row/column loop over the empty squares. */
  method DropsOfTypeLoop(board: Grid, currentPlayer: Player, pieceType: PieceType) returns (actions: seq<Action>)
    ensures actions == DropsOfType(currentPlayer, board)(pieceType)
  {
    ghost var f := DropTo(currentPlayer, board, pieceType);
    SquaresInOrder();
    FlatMapEmpty(f, Squares);
    hide Squares, FlatMap;
    actions := [];
    for r := 0 to BoardRows
      invariant actions == FlatMap(f, Squares[..r * BoardCols])
    {
      for c := 0 to BoardCols
        invariant actions == FlatMap(f, Squares[..r * BoardCols + c])
      {
        var pos := Position(r, c);
        SquareIndex(pos);
        FlatMapStep(f, Squares, r * BoardCols + c);
        if board[r][c] == None {
          if pieceType == Chick {
            var promotionRow := if currentPlayer == Sente then 0 else BoardRows - 1;
            if r == promotionRow {
              continue;
            }
          }
          actions := actions + [Drop(pieceType, pos)];
        }
      }
    }
    assert Squares[..BoardRows * BoardCols] == Squares;
  }

  /** `uniqueCaptured.forEach(...)`: the drops of each type in turn. */
  method PotentialDropsLoop(board: Grid, currentPlayer: Player, uniqueCaptured: seq<PieceType>) returns (actions: seq<Action>)
    ensures actions == FlatMap(DropsOfType(currentPlayer, board), uniqueCaptured)
  {
    ghost var f := DropsOfType(currentPlayer, board);
    FlatMapEmpty(f, uniqueCaptured);
    hide FlatMap, DropsOfType;
    actions := [];
    for i := 0 to |uniqueCaptured|
      invariant actions == FlatMap(f, uniqueCaptured[..i])
    {
      FlatMapStep(f, uniqueCaptured, i);
      var drops := DropsOfTypeLoop(board, currentPlayer, uniqueCaptured[i]);
      actions := actions + drops;
    }
    assert uniqueCaptured[..|uniqueCaptured|] == uniqueCaptured;
  }

  /** getAllPossibleActions as the service runs it. */
  method GetAllPossibleActions(gameState: GameState) returns (actions: seq<Action>)
    requires IsGrid(gameState.board)
    ensures actions == PossibleActions(gameState)
  {
    var board: Grid := gameState.board;
    var currentPlayer := gameState.currentPlayer;
    var captured := gameState.captured;
    actions := BoardMoves(board, currentPlayer);
    var capturedPieces := captured.Of(currentPlayer);
    var uniqueCaptured := Distinct(capturedPieces);
    var drops := PotentialDropsLoop(board, currentPlayer, uniqueCaptured);
    actions := actions + drops;
  }

  /** getSimpleAiMove: some action of the list (the random index is a free choice), or the
      service's error when the list is empty. */
  method GetSimpleAiMove(gameState: GameState) returns (r: Result<Action, string>)
    requires IsGrid(gameState.board)
    ensures r.Success? <==> |PossibleActions(gameState)| > 0
    ensures r.Success? ==> r.value in PossibleActions(gameState)
    ensures r.Failure? ==> r.error == "AI could not find any possible moves."
  {
    var possibleActions := GetAllPossibleActions(gameState);
    if |possibleActions| == 0 {
      return Failure("AI could not find any possible moves.");
    }
    var randomIndex :| 0 <= randomIndex < |possibleActions|;
    return Success(possibleActions[randomIndex]);
  }
}
