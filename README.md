# Dobutsu Shogi rules engine in Dafny

This project models the rules engine of a Dobutsu Shogi ("animal chess") game: a 4×3 board, the
Lion, Giraffe, Elephant and Chick of each side, captured pieces that go into the captor's hand and
can be dropped back, Chick promotion to Hen, and wins by capturing the Lion or by a Lion "Try" to
the far row. Three engines in the repository share the rules and are modelled:

- the authoritative server engine `server/gameLogic.js` (module `GameLogic`, file
  `game_logic.dfy`). Its functions (move generation, Lion lookup, attack and check tests, legal
  actions with the Chick-drop restrictions, winner detection, the state transition) are Dafny
  functions. Its loops are methods, each proved equal to the function that specifies it;
- the client engine in `hooks/useGameLogic.ts` (module `ClientLogic`, file `client_logic.dfy`).
  It recomputes the same rules inside a React hook. Where it agrees with the server its methods
  are proved equal to the server's functions. Where it differs it has its own specification and
  a lemma bounding the difference. It differs in two places:
  - its `hasAnyValidMove` omits the drop-mate test;
  - its turn counter advances on every ply;
- the random opponent `services/simpleAiService.ts` (module `SimpleAi`, file `simple_ai.dfy`). It
  enumerates pseudo-legal actions without the self-check test and picks one.

`engines_differ.dfy` (module `EnginesDiffer`) shows that the two `hasAnyValidMove` functions
can disagree. The example is a constructed position, not one a game from the initial layout can
reach: it has twelve pieces, and GOTE Chicks stand on GOTE's promotion row. SENTE's Lion is boxed
in and SENTE holds a Chick, and the only candidate is a mating Chick drop. The server finds no
legal action and declares GOTE the winner; the client accepts the drop and declares no winner.
Whether a reachable position exposes the difference is not shown.

`types.dfy` (module `Types`) holds the data model of `types.ts`. `constants.dfy` (module
`Constants`) holds the board size, the initial layout, the step table of `constants.ts` and the
board geometry. The server repeats these constants at `server/gameLogic.js:1-20` with the same
values. `lists.dfy` (module `Lists`) holds the array idioms the engines use:
- `[...new Set(xs)]`;
- `indexOf` and `splice`;
- `filter`;
- the push-in-a-loop pattern as an ordered concatenation, `FlatMap`.

Values replace the source's mutable objects. The JSON `cloneDeep` of the server and the recursive
`cloneDeep` of the client make the source's updates act on a private copy. So a board is a
sequence of rows, and an assignment `board[r][c] = x` is `Put`. The hands are two sequences that
`push` appends to and `splice` removes from.

## Model

| member | source | states |
|---|---|---|
| Types.PlayerValue | types.ts:1-4 | SENTE is the number 0 and GOTE the number 1 |
| Types.Opponent | server/gameLogic.js:194 | the other player of SENTE is GOTE and vice versa |
| Types.Truthy | server/gameLogic.js:203 | `!!winner` is true exactly when GOTE won: SENTE's value 0 is falsy |
| Lists.Distinct | server/gameLogic.js:100 | `[...new Set(xs)]` has the same elements as `xs`, no repeats, and is no longer |
| Lists.IndexOf | server/gameLogic.js:184 | `indexOf` gives -1 exactly when the element is absent; otherwise it gives the first position holding it |
| Lists.RemoveFirst | server/gameLogic.js:184-187 | splicing out the found index removes exactly one occurrence (multiset minus one, length minus one); an absent element leaves the list as it is |
| Lists.RemoveFirstCutsFirst | server/gameLogic.js:184-187 | the occurrence removed is the first: the result is the list with the position of the first occurrence cut out |
| Lists.Filter | hooks/useGameLogic.ts:136-141 | `filter` keeps exactly the elements satisfying the test |
| Constants.Put | server/gameLogic.js:173-174 | assigning one square changes that square and no other |
| Constants.InitialBoardShape | constants.ts:4-12 | INITIAL_BOARD has BOARD_ROWS = 4 rows of BOARD_COLS = 3 squares |
| Constants.InitialLions | constants.ts:8-11 | the initial board has exactly one Lion per player, GOTE's at (0,1) and SENTE's at (3,1) |
| Constants.InitialBoardPointSymmetric | constants.ts:7-12 | square (r,c) holds the same type as square (3-r,2-c), with the owner swapped |
| Constants.OffsetsAreSingleSteps | constants.ts:16-36 | every step is a non-zero pair with both components in {-1,0,1} |
| Constants.OffsetsDistinct | constants.ts:16-36 | no step is listed twice for one type |
| Constants.GiraffeAndElephantMakeLion | constants.ts:17-27 | the Giraffe's steps and the Elephant's steps are disjoint and together are the Lion's |
| Constants.HenIsLionWithoutBackDiagonals | constants.ts:17-35 | the Hen's steps are the Lion's minus the two backward diagonals |
| Constants.ChickStepsForward | constants.ts:28-30 | the Chick has the single forward step |
| GameLogic.PieceMovesMembership | server/gameLogic.js:33-46 | a square is a destination iff it is on the board, does not hold the mover's own piece, and is one table step away, with the row step negated for GOTE and the column step kept |
| GameLogic.PieceMovesInBounds | server/gameLogic.js:40 | every destination is on the board |
| GameLogic.GetPieceMoves | server/gameLogic.js:33-46 | the forEach loop yields the destinations in table order |
| GameLogic.FindLionSpec | server/gameLogic.js:48-58 | the lookup finds the first of the player's Lions in row-major order, and finds nothing exactly when the player has no Lion |
| GameLogic.FindLionPosition | server/gameLogic.js:48-58 | the nested loop with early return computes that lookup |
| GameLogic.IsPositionUnderAttack | server/gameLogic.js:60-73 | the loop answers whether some piece of the attacker has the square among its destinations |
| GameLogic.InCheckSpec | server/gameLogic.js:75-80 | a player without a Lion is in check; otherwise the player is in check iff some opposing piece has the Lion's square among its destinations |
| GameLogic.IsKingInCheck | server/gameLogic.js:75-80 | the method computes that check test |
| GameLogic.OnlyLionIsFound | server/gameLogic.js:48-58 | when the player has exactly one Lion, findLionPosition returns its square |
| GameLogic.CheckedBy | server/gameLogic.js:60-80 | one table step of an opposing piece landing on the Lion findLionPosition returns puts the player in check |
| GameLogic.NotCheckedBy | server/gameLogic.js:60-80 | when no table step of any opposing piece lands on that Lion, the player is not in check |
| GameLogic.PlaceFillsOneSquare | server/gameLogic.js:108-111 | the scratch board of a Chick drop has one empty square fewer, which bounds the recursion of the drop-mate test |
| GameLogic.SafeMovesOf | server/gameLogic.js:89-96 | each destination is kept iff the bare relocation on a scratch board leaves the mover out of check |
| GameLogic.CanDrop | server/gameLogic.js:105-117 | a drop on an empty square is rejected for a Chick on the mover's promotion row, for a Chick drop-mate (the opponent in check with no legal action), and when it leaves the mover in check |
| GameLogic.DropsOf | server/gameLogic.js:102-122 | the row/column loop for one type yields its allowed drops in row-major order |
| GameLogic.GetLegalMoves | server/gameLogic.js:84-99 | the first loop yields the legal moves in row-major order of the source square |
| GameLogic.GetLegalDrops | server/gameLogic.js:100-123 | the loop over the distinct hand types yields each type's drops in turn |
| GameLogic.GetLegalActions | server/gameLogic.js:82-125 | getLegalActions is the legal moves followed by the legal drops |
| GameLogic.MovesFromSquareMembership | server/gameLogic.js:86-97 | the moves listed for one square are exactly the legal moves from it |
| GameLogic.LegalMovesMembership | server/gameLogic.js:84-99 | a move is listed iff it starts on the mover's piece, goes to one of its destinations, and leaves the mover out of check |
| GameLogic.DropsOfKindMembership | server/gameLogic.js:102-122 | a drop of a type is listed iff its square is empty and the drop is allowed |
| GameLogic.LegalDropsMembership | server/gameLogic.js:100-123 | a drop is listed iff its type is in the hand, its square is empty and the drop is allowed |
| GameLogic.LegalActionsMembership | server/gameLogic.js:82-125 | an action is returned iff it is a legal move or a legal drop; every returned move and drop leaves the mover out of check |
| GameLogic.HasAnyValidMove | server/gameLogic.js:127-129 | the player can act iff getLegalActions is non-empty |
| GameLogic.WinnerRules | server/gameLogic.js:131-148 | the winner rules apply in order, the first match deciding: no SENTE Lion gives GOTE; no GOTE Lion gives SENTE; SENTE's Try gives SENTE; GOTE's Try gives GOTE; a player to move with no legal action loses; otherwise no winner |
| GameLogic.CheckForWinner | server/gameLogic.js:131-148 | the method computes that verdict |
| GameLogic.InitialNotInCheck | constants.ts:7-12 | in the initial layout neither player is in check |
| GameLogic.InitialCanAct | server/gameLogic.js:82-99 | in the initial layout either player, moving first, has a legal action |
| GameLogic.InitialStateFacts | server/gameLogic.js:24-31 | createInitialState puts each Lion on its home square, leaves both hands empty, gives the move to `firstPlayer` (SENTE when omitted) on turn 1, and its flags agree with the rules: isCheck is the check test of the player to move, winner is checkForWinner's verdict (none), isCheckmate its truthiness |
| GameLogic.Apply | server/gameLogic.js:150-206 | the next state always has a 4×3 board |
| GameLogic.ApplyIgnores | server/gameLogic.js:154-191 | the three early returns leave the state unchanged: a missing action (154-157), a move from an empty square (161-164), and an object that is neither a Move nor a Drop (189-191) |
| GameLogic.MovePiece | server/gameLogic.js:160-180 | the in-place move branch yields that board and those hands |
| GameLogic.DropPiece | server/gameLogic.js:182-188 | the in-place drop branch yields that board and those hands |
| GameLogic.FinishTurn | server/gameLogic.js:194-205 | the closing assignments pass the turn, advance the counter after GOTE or from 0, and write isCheck, winner and isCheckmate |
| GameLogic.ApplyAction | server/gameLogic.js:150-206 | applyAction as written computes `Apply` |
| GameLogic.ApplyMoveEffect | server/gameLogic.js:159-180 | after a move the source is empty and the destination holds the piece, a Hen when a Chick reaches the far row; other squares are kept; a captured piece enters the mover's hand, a Hen as a Chick; the opponent's hand is kept |
| GameLogic.ApplyMoveOntoItself | server/gameLogic.js:167-174 | a move onto its own square, which applyAction does not reject, banks the moving piece itself (a Lion included, a Hen as a Chick) and leaves the square empty, every other square and the opponent's hand kept |
| GameLogic.ApplyDropEffect | server/gameLogic.js:181-188 | after a drop the square holds the mover's piece and other squares are kept; a held type leaves the hand exactly once, an unheld type leaves it unchanged; the opponent's hand is kept |
| GameLogic.ApplyBookkeeping | server/gameLogic.js:194-203 | after an effective action the other player moves; the counter advances only after GOTE or from 0; isCheck is the next player's check; winner is checkForWinner's verdict; isCheckmate holds iff GOTE won; isDraw and history are kept |
| GameLogic.ApplyConservesPieces | server/gameLogic.js:167-187 | a move, and a drop of a held type on an empty square, keep the total count of pieces on the board and in hands |
| GameLogic.ApplyKeepsHensOutOfHands | server/gameLogic.js:167-187 | if no hand holds a Hen before an action, none does after it |
| ClientLogic.CloneDeep | hooks/useGameLogic.ts:6-16 | the recursive clone is equal to its argument |
| ClientLogic.ClientInitialState | hooks/useGameLogic.ts:18-28 | the client's initial state is the server's for its default first player, SENTE |
| ClientLogic.GetPieceMoves | hooks/useGameLogic.ts:42-60 | the client's move generation gives the server's destinations in the same order |
| ClientLogic.FindLionPosition | hooks/useGameLogic.ts:62-72 | the client's Lion lookup is the server's |
| ClientLogic.IsPositionUnderAttack | hooks/useGameLogic.ts:74-87 | the client's attack test is the server's |
| ClientLogic.IsKingInCheck | hooks/useGameLogic.ts:89-94 | the client's check test is the server's |
| ClientLogic.AnySafeDestination | hooks/useGameLogic.ts:102-107 | the inner loop finds a destination iff one leaves the player out of check |
| ClientLogic.AnySafeMove | hooks/useGameLogic.ts:97-110 | the move loops find a move iff the server has a legal move for the player |
| ClientLogic.AnySafeDrop | hooks/useGameLogic.ts:111-126 | the drop loops find a drop iff some held type has an empty square, not the Chick's promotion row, that leaves the player out of check |
| ClientLogic.HasAnyValidMove | hooks/useGameLogic.ts:96-128 | the client's hasAnyValidMove holds iff there is such a move or such a drop |
| ClientLogic.ClientCanActVersusServer | hooks/useGameLogic.ts:96-128 | when the server's hasAnyValidMove holds, so does the client's; it holds for the client alone exactly when the server has no legal action and the player holds a Chick with a safe drop that the server rejects as a drop-mate |
| ClientLogic.ValidMovesForPieceSpec | hooks/useGameLogic.ts:130-142 | the valid destinations are exactly the server's legal moves from that square, and none unless it holds the player's piece |
| ClientLogic.ValidDropsMembership | hooks/useGameLogic.ts:144-165 | a square is offered iff the type is held and the square is empty, not the Chick's promotion row, and safe for the player |
| ClientLogic.ValidDropsVersusServer | hooks/useGameLogic.ts:144-165 | the server accepts a drop iff the client offers it and, for a Chick, it is not a drop-mate |
| ClientLogic.GetValidDropsForPiece | hooks/useGameLogic.ts:144-165 | the method computes the offered squares in row-major order |
| ClientLogic.SafeDropSquares | hooks/useGameLogic.ts:148-163 | the row/column loop yields the safe drop squares in row-major order |
| ClientLogic.ClientWinnerVersusServer | hooks/useGameLogic.ts:167-187 | the client's verdict equals the server's whenever the player to move has a legal action; the two differ only when the server declares that player lost and the client sees a drop-mate it accepts |
| ClientLogic.CheckForWinner | hooks/useGameLogic.ts:167-187 | the client's checkForWinner, which looks up the GOTE Lion only after finding SENTE's, computes the client's verdict |
| ClientLogic.ClientApply | hooks/useGameLogic.ts:189-229 | the client's next state always has a 4×3 board |
| ClientLogic.ClientApplyIgnores | hooks/useGameLogic.ts:195-196 | a move from an empty square leaves the state unchanged |
| ClientLogic.FinishTurn | hooks/useGameLogic.ts:220-226 | the closing assignments pass the turn, advance the counter on every action, and write isCheck, winner and isCheckmate |
| ClientLogic.ApplyAction | hooks/useGameLogic.ts:189-229 | the client's applyAction as written computes `ClientApply` |
| ClientLogic.ClientApplyVersusServer | hooks/useGameLogic.ts:189-229 | client and server agree on board, hands, next player, last move, isCheck, isDraw and history; the client's counter advances once per effective action; the states are equal up to the counter when the next player can act; the winners differ only where the server declares the next player lost and the client sees no winner |
| ClientLogic.ServerTurnStep | server/gameLogic.js:194-199 | one effective server action passes the turn and advances the counter only after GOTE |
| ClientLogic.RunsAgree | hooks/useGameLogic.ts:220-226 | along the same effective actions from agreeing states the two engines stay in agreement, and the client's counter advances once per action |
| ClientLogic.ServerRunTurns | server/gameLogic.js:194-199 | along effective server actions the turn alternates and the counter advances once per GOTE action |
| ClientLogic.TurnCountsFromStart | hooks/useGameLogic.ts:223 | from the opening position, after n effective actions the engines agree on the game, the client shows turn 1 + n and the server turn 1 + n / 2 |
| EnginesDiffer.SenteHasNoLegalMove | server/gameLogic.js:84-99 | on the example position every move of SENTE's boxed-in Lion leaves it in check |
| EnginesDiffer.DropIsSafe | hooks/useGameLogic.ts:111-126 | dropping SENTE's Chick on the one empty square leaves SENTE out of check |
| EnginesDiffer.GoteHasNoLegalMove | server/gameLogic.js:84-99 | after that drop GOTE is in check and every GOTE move leaves it in check |
| EnginesDiffer.DropMates | server/gameLogic.js:105-113 | that drop is a drop-mate: GOTE is in check and has no legal action |
| EnginesDiffer.SenteHasNoLegalDrop | server/gameLogic.js:100-123 | the server accepts no drop for SENTE on the example position |
| EnginesDiffer.EnginesDisagree | hooks/useGameLogic.ts:96-128 | on the constructed (unreachable) example position the server's hasAnyValidMove is false and the client's true; the server's checkForWinner declares GOTE the winner and the client's declares none |
| SimpleAi.PotentialFromMembership | services/simpleAiService.ts:37-43 | the moves listed from one square are the piece's destinations, when the piece is the player's |
| SimpleAi.PotentialMovesMembership | services/simpleAiService.ts:35-45 | a move is listed iff it starts on the player's piece and goes to one of its destinations |
| SimpleAi.DropsOfTypeMembership | services/simpleAiService.ts:52-62 | the drops of one type are those on empty squares, skipping the promotion row for a Chick |
| SimpleAi.PotentialDropsMembership | services/simpleAiService.ts:48-63 | a drop is listed iff its type is held and its square is empty and, for a Chick, not on the promotion row |
| SimpleAi.PossibleActionsMembership | services/simpleAiService.ts:30-66 | every listed move starts on the player's piece and ends on the board, on a square without the player's piece, one table step away; every listed drop puts a held type on an empty square and never puts a Chick on the promotion row; every such action is listed |
| SimpleAi.LegalActionsArePossible | services/simpleAiService.ts:30-66 | every action the server accepts is listed, so the list is non-empty whenever the player has a legal action |
| SimpleAi.PotentialMovesOrdered | services/simpleAiService.ts:35-45 | the moves are in row-major order of their source square |
| SimpleAi.PotentialDropsNoRepeats | services/simpleAiService.ts:48-63 | no drop is listed twice |
| SimpleAi.PossibleActionsOrder | services/simpleAiService.ts:34-63 | all moves come before all drops and are in row-major order of their source square; no drop is repeated |
| SimpleAi.GetPotentialMovesForPiece | services/simpleAiService.ts:10-28 | the AI's move generation gives the server's destinations in the same order |
| SimpleAi.PushMoves | services/simpleAiService.ts:40-42 | the forEach pushes one move per destination, in order |
| SimpleAi.BoardMoves | services/simpleAiService.ts:35-45 | the board loop yields the listed moves |
| SimpleAi.DropsOfTypeLoop | services/simpleAiService.ts:52-62 | the row/column loop for one type yields its drops |
| SimpleAi.PotentialDropsLoop | services/simpleAiService.ts:51-63 | the forEach over the distinct hand types yields each type's drops in turn |
| SimpleAi.GetAllPossibleActions | services/simpleAiService.ts:30-66 | the method computes the list: moves, then drops |
| SimpleAi.GetSimpleAiMove | services/simpleAiService.ts:68-79 | the result is some element of the list when the list is non-empty, and otherwise the error "AI could not find any possible moves." |

## Left out

- Logging: `console.error` in `applyAction` has no effect on the result and is dropped.
- Randomness and timers: `Math.random` is dropped; `getSimpleAiMove` picks any index of the list. The `setTimeout` delay and the promise are dropped. The source throws inside the timer callback, so the error escapes the promise instead of rejecting it; the model returns it as a `Failure` value.
- The React side of `hooks/useGameLogic.ts` is not modelled: `useState`, the setters, `useCallback`, and the click handlers `handleSquareClick` and `handleCapturedPieceClick`. The hook's `board`, `captured` and `currentPlayer` are passed as parameters. The client's `applyAction` returns the state it would hand to `setGameState`.
- `server.js`, `App.tsx`, the components and the Gemini service are not part of this model. In particular, whether the server checks a received action against `getLegalActions`, or refuses actions after a win, is decided there.
- Off-board positions: every action is required to name positions on the board (`ActionInBounds`), and every board is required to be 4×3. The source does not reject other positions, and what it does depends on the case:
  - A row outside the board makes `board[row][col]` throw.
  - A move from a column outside the board reads `undefined` and returns the state unchanged.
  - A move to a column outside the board reads `undefined` as "no capture". It then writes the piece outside the 4×3 grid and empties the source square.
  - A drop to a column outside the board writes the piece there and still spends the hand entry.
  - The later scans visit only the 4×3 grid, so a piece written outside it drops out of play.
- Non-object actions: a received value that is truthy but not an object, such as a number or a string, makes `'from' in action` throw a TypeError. `Received` has no such case, so this is not modelled.
- createInitialState leaves `lastMove` and `winner` undefined. The model gives them the value `None`.
- cloneDeep: the JSON round trip and the recursive clone are value semantics. Object identity, `undefined`, functions, prototypes and inherited enumerable keys are not modelled. Nothing in the model can alias its input.
- `pieceToMove.type = HEN` mutates the piece object after it is placed. The model places the promoted value directly; the resulting board is the same.
- `isDraw` and `history` are declared in the game state but no core code writes them. The model carries them through unchanged.
- JavaScript numbers are mathematical integers here; the turn counter has no overflow.
- GameLogic.ApplyConservesPieces: stated only for drops of a held type on an empty square. The source lets a drop overwrite an occupied square, destroying the piece there. It also lets a drop of an unheld type create a piece.
