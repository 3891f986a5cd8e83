# Chess engine and small game rules, modelled in Dafny

This project models the rules at the heart of a set of small Java Swing
programs, stated as pure functions on immutable values, and proves what
those rules promise.

- **Chess (ChessGame.java).**
  - The 8x8 board of pieces. Each piece has an identity, a kind, a colour, a square and a remembered previous square. The identity stands for the Java object: the en-passant test compares objects, and the game invariant keeps every identity in one cell.
  - The six move patterns (`isValidMove` of each piece class) and the six candidate generators (`getValidMoves`).
  - `Board.isValidMove` as a simulate-and-undo probe; `isCheck`, `findKing` and the attack scan.
  - `isCheckmate` with its `tryMove` loop, as a scan that threads the board through every probe.
  - The click controller:
    - selecting a piece and highlighting its moves;
    - castling and en passant;
    - the post-move logic: en-passant flag, king-moved flags, turn switch, check and checkmate.

  The controller's king-moved flags and en-passant pawn are explicit inputs (`Flags`). Every probe leaves a trace in the moved piece's `previousRow`/`previousCol`. Module ChessHistory proves that no decision reads that trace.
- **Study planner (CREATE.java).**
  - Reading the add-session form: `trim`, `Integer.parseInt`, the random start hour of `validateTime`.
  - The schedule comparator (priority descending, then date, then start hour) and the sort.
  - The "Randomize" button.
- **Guessing game (GuessMe.java).** The five-attempt state machine behind the text field.
- **Tower defence (BTD2.java).**
  - Money, lives and rounds; enemy spawning.
  - Tower placement spacing and purchase.
  - The upgrade panel's costs and level caps.
- **Arena game (NewStart.java).**
  - Player clamping, key-driven velocity, levelling.
  - Bullet direction.
  - Wave sizes and the integer effects of level-up upgrades.
- **Math homework (MathHomeworkGenerator.java).**
  - The integer question kinds and their answers.
  - The operand-count rule and the `mm:ss` timer caption.
  - The checks `generateTest` makes before building a test.

Random draws (`Random.nextInt`, `Math.random`, `Collections.shuffle`) are parameters, given together with their ranges. So are the clock, the Swing widgets' contents, and the floating-point decisions the economy depends on: how many enemies escaped, which kills earned the bonus, whether a click is near the path. `java.lang`'s `Integer.toString`, `Integer.parseInt`, `String.trim` and `%02d` are modelled in module JavaText. Java `int` arithmetic is modelled with unbounded integers. The proofs bound the math homework's answers (each is at most 10^8), so no overflow arises there; the quantities left unbounded are listed under "## Left out".

## Model

| member | source | states |
|---|---|---|
| ChessBoard.Put | ChessGame.java:328-330 | `setPiece` writes one cell and leaves the other 63 cells as they were |
| ChessBoard.AttackScanFrom | ChessGame.java:470-482 | the row-major attack loop from square index i answers true iff some square at or after i holds a piece of the attacking colour whose pattern reaches the target |
| ChessBoard.AttackScanMatches | ChessGame.java:470-482 | `isSquareUnderAttack` is true iff some piece of the attacking colour, anywhere on the board, accepts the target by its own pattern (no recursion into check) |
| ChessBoard.KingScanFinds | ChessGame.java:455-465 | the `findKing` loop returns the first king of the colour in row-major order, or null when there is none after the start index |
| ChessBoard.FindKing | ChessGame.java:455-465 | `findKing` is null exactly when the colour has no king; otherwise it returns the king on its own square, with no king of that colour earlier in row-major order |
| ChessBoard.CheckMeansKingAttacked | ChessGame.java:399-402 | with a single king of the colour, `isCheck` holds iff some opposing piece's pattern reaches the king's square |
| ChessBoard.SimulateKeepsKing | ChessGame.java:358-366 | the simulated move (origin cleared, piece placed and repositioned) keeps the board well formed and leaves the mover a king |
| ChessBoard.ClearKeepsIds | ChessGame.java:392-394 | emptying a cell keeps every piece in one cell only |
| ChessBoard.ClearKeepsOneKing | ChessGame.java:392-394 | emptying a cell keeps at most one king per side |
| ChessBoard.MovePieceKeepsIds | ChessGame.java:379-388 | `movePiece` of a piece on its own cell keeps every piece in one cell only |
| ChessBoard.MovePieceKeepsOneKing | ChessGame.java:379-388 | `movePiece` of a piece on its own cell keeps at most one king per side |
| ChessBoard.ProbeUndoes | ChessGame.java:343-373 | the mutate-check-undo probe answers exactly as the declarative legality test (on the board, not onto own colour, pattern, own king safe afterwards). It restores the grid and the piece's square. A target passing the board, colour and pattern tests leaves exactly one trace, the piece's previous square now being that target; any other target leaves none |
| ChessBoard.TryMoveAgrees | ChessGame.java:431-450 | `tryMove` returns the same answer as `isValidMove` and leaves the same grid as the probe |
| ChessBoard.MovePiece | ChessGame.java:379-387 | `movePiece` puts the piece on the target (repositioned, a rook marked moved), empties the origin and changes no other square |
| ChessBoard.MovePieceKeepsPlaced | ChessGame.java:379-387 | after `movePiece` every piece still stands on the square it records, the moved piece included |
| ChessBoard.MoveIsSimulated | ChessGame.java:379-387 | for a valid move of a non-rook, `movePiece` yields exactly the position the legality probe simulated, so the mover's king is not in check afterwards |
| ChessBoard.CaptureEnPassant | ChessGame.java:392-394 | `captureEnPassant` empties only the captured pawn's own square |
| ChessCandidates.RayMembers | ChessGame.java:652-666 | one direction of a sliding generator holds exactly the squares along that direction reached over empty squares and not held by the mover's colour; it stops at the first occupied square |
| ChessCandidates.RayGeometry | ChessGame.java:652-666 | every square a ray generates is on the board and on the ray's line |
| ChessCandidates.RookRaysMatch | ChessGame.java:649-669 | a square is among the Rook's candidates iff it is on the board, not held by the mover's colour, and accepted by `Rook.isValidMove` (same row or column, every square between empty) |
| ChessCandidates.BishopRaysMatch | ChessGame.java:739-759 | a square is among the Bishop's candidates iff it is on the board, not held by the mover's colour, and accepted by `Bishop.isValidMove` (equal row and column distance, every square between empty) |
| ChessCandidates.BishopRayOf | ChessGame.java:739-759 | a square is among the Bishop's candidates iff it is on a diagonal through the bishop and lies on the ray pointing toward it |
| ChessCandidates.LeapsMembers | ChessGame.java:696-704 | an offset-table generator lists exactly the in-bounds squares at a listed offset that do not hold the mover's colour |
| ChessCandidates.PawnCandidatesMatch | ChessGame.java:581-606 | a square is among the Pawn's candidates iff it is on the board and `Pawn.isValidMove` accepts it: one step forward onto an empty square; two from the start row over an empty square; diagonally forward onto an enemy or beside the en-passant pawn |
| ChessCandidates.CastleTargets | ChessGame.java:841-852 | the castling candidates of a king on file 4 are exactly the two-file sideways squares its castling pattern accepts: unmoved flag, unmoved rook in that corner, every square between empty |
| ChessCandidates.KnightOffsetsAre | ChessGame.java:692-695 | the Knight's offset table holds exactly the (1,2) and (2,1) jumps in every direction |
| ChessCandidates.KingOffsetsAre | ChessGame.java:827-830 | the King's offset table holds exactly the eight neighbouring steps |
| ChessCandidates.KnightLeapsMatch | ChessGame.java:690-706 | a square is among the Knight's candidates iff it is on the board, not held by the mover's colour, and accepted by `Knight.isValidMove` |
| ChessCandidates.KingLeapsMatch | ChessGame.java:825-839 | the King's one-step candidates are exactly the in-bounds neighbouring squares not held by the mover's colour |
| ChessCandidates.KingCandidatesMatch | ChessGame.java:825-853 | a square is among the King's candidates (steps plus castling) iff it is on the board, not held by the mover's colour, and accepted by `King.isValidMove` |
| ChessCandidates.CandidatesArePseudoLegal | ChessGame.java:779-784 | for every kind (the Queen as Rook plus Bishop), a square is a `getValidMoves` candidate iff it is on the board and accepted by the piece's pattern (and, except for pawns, not held by the mover's colour); so every move `isValidMove` accepts is among the candidates |
| ChessHistory.RepositionIsAlike | ChessGame.java:511-516 | putting a piece back on its square with a different remembered previous square changes nothing but that trace |
| ChessHistory.PathClearAlike | ChessGame.java:638-644 | the "every square between is empty" walk gives the same answer on boards that differ only in probe traces |
| ChessHistory.CastleClearAlike | ChessGame.java:812-816 | the castling emptiness check gives the same answer on boards that differ only in probe traces |
| ChessHistory.PatternAlike | ChessGame.java:504 | every piece's `isValidMove` pattern ignores previous squares: alike boards and pieces get the same answer |
| ChessHistory.PawnPatternAlike | ChessGame.java:554-578 | the Pawn pattern, including the en-passant identity test, ignores previous squares |
| ChessHistory.KingPatternAlike | ChessGame.java:798-822 | the King pattern, including castling, ignores previous squares |
| ChessHistory.LinesAlike | ChessGame.java:630-646 | the Rook and Bishop patterns ignore previous squares |
| ChessHistory.AttacksFromAlike | ChessGame.java:473-477 | whether the piece on one square attacks the target is the same on alike boards |
| ChessHistory.AttackScanAlike | ChessGame.java:470-482 | `isSquareUnderAttack` gives the same answer on alike boards |
| ChessHistory.KingScanAlike | ChessGame.java:455-465 | `findKing` finds the same king (up to its previous square) on alike boards |
| ChessHistory.IsCheckAlike | ChessGame.java:399-402 | `isCheck` gives the same answer on alike boards |
| ChessHistory.IsValidMoveAlike | ChessGame.java:343-373 | `isValidMove` gives the same answer on alike boards for alike pieces, so earlier probes never change later answers |
| ChessHistory.RayAlike | ChessGame.java:652-666 | a sliding ray generates the same squares on alike boards |
| ChessHistory.LeapsAlike | ChessGame.java:696-704 | an offset-table generator lists the same squares on alike boards |
| ChessHistory.CandidatesAlike | ChessGame.java:506 | every piece's `getValidMoves` list is the same on alike boards for alike pieces |
| ChessHistory.PawnCandidatesAlike | ChessGame.java:581-606 | the Pawn's candidate list is the same on alike boards |
| ChessHistory.PawnDiagonalAlike | ChessGame.java:595-605 | each diagonal of the Pawn's generator, en-passant identity included, is the same on alike boards |
| ChessHistory.CastleCandidatesAlike | ChessGame.java:841-852 | the King's castling candidates are the same on alike boards |
| ChessHistory.RookRaysAlike | ChessGame.java:649-669 | the Rook's candidate list is the same on alike boards |
| ChessHistory.BishopRaysAlike | ChessGame.java:739-759 | the Bishop's candidate list is the same on alike boards |
| ChessHistory.MovePieceAlike | ChessGame.java:379-387 | `movePiece` of alike pieces on alike boards yields alike boards and the same moved piece |
| ChessMate.TryEach | ChessGame.java:417-421 | trying a piece's candidates one by one leaves a board that differs from the start only in probe traces, with the piece still on its square |
| ChessMate.TryEachStep | ChessGame.java:417-421 | one iteration of the candidate loop: stop with success if `tryMove` accepts the first candidate, otherwise continue on the probed board |
| ChessMate.TryEachFinds | ChessGame.java:417-421 | the candidate loop succeeds iff some listed candidate is a valid move on the original board |
| ChessMate.SomeCandidateValid | ChessGame.java:416-418 | some `getValidMoves` candidate passes `isValidMove` iff the piece has any valid move at all |
| ChessMate.PieceFinds | ChessGame.java:414-421 | the loop over one piece's candidates succeeds iff that piece has a valid move on the original board |
| ChessMate.ScanStepFinds | ChessGame.java:412-422 | the scan at one owned square finds an escape iff the piece there has a valid move |
| ChessMate.ScanStep | ChessGame.java:412-425 | one square of the checkmate scan: report an escape, or continue on the probed board, which stays alike to the original |
| ChessMate.MateScan | ChessGame.java:412-425 | the checkmate scan only ever leaves probe traces on the board |
| ChessMate.FirstVerdictMeaning | ChessGame.java:412-425 | the reference verdict over the 64 squares: an escape when some owned piece can move, a fault when a last-rank pawn is reached first, no escape iff every square is empty, the opponent's, or an immobile own piece |
| ChessMate.ScanAt | ChessGame.java:412-425 | what one square does to the scan: skip it, fault on a last-rank pawn, stop at a movable piece, or continue past an immobile one |
| ChessMate.MateScanIsFirstVerdict | ChessGame.java:412-425 | the threaded checkmate scan returns exactly the reference verdict computed on the original board |
| ChessMate.LastRankPawnImmobile | ChessGame.java:554-578 | a pawn on its last rank has no valid move |
| ChessMate.MovableFromEscape | ChessGame.java:412-425 | if the side has any valid move, some square of the reference scan is a movable own piece |
| ChessMate.MovableMeansCanEscape | ChessGame.java:412-425 | some square of the reference scan is movable iff the side has a valid move |
| ChessMate.LastRankMeansStuck | ChessGame.java:412-425 | some square of the reference scan is a last-rank pawn iff the side has a pawn on its last rank |
| ChessMate.MateScanMeaning | ChessGame.java:407-426 | the scan reports an escape only if the side can move, a fault only if it has a last-rank pawn, and no escape iff it has neither |
| ChessMate.IsCheckmate | ChessGame.java:407-426 | `isCheckmate` only ever leaves probe traces on the board |
| ChessMate.CheckmateMeaning | ChessGame.java:407-426 | without a last-rank pawn, `isCheckmate(c)` is true iff c is in check and no piece of c has a valid move |
| ChessGame.Highlight | ChessGame.java:238-243 | filtering the candidates through `isValidMove` leaves only probe traces on the board |
| ChessGame.HighlightStep | ChessGame.java:239-243 | one iteration of the highlight filter: keep the candidate iff the probe accepts it, then continue on the probed board |
| ChessGame.HighlightFinds | ChessGame.java:238-243 | a square is highlighted iff it is a candidate and a valid move on the original board |
| ChessGame.SelectHighlightsValidMoves | ChessGame.java:161-167 | clicking a piece of the side to move selects it, and the highlighted squares are exactly its valid moves. Clicking anything else only clears the highlights. A pawn on its last rank crashes the generator |
| ChessGame.InvalidMoveCancels | ChessGame.java:172-183 | a click on a square the selected piece cannot move to deselects and changes neither turn, flags, status, caption nor (up to probe traces) the board |
| ChessGame.ClickSwitchesTurn | ChessGame.java:146-156 | a click hands the turn to the other side iff a piece is selected and the clicked square is a valid move for it |
| ChessGame.ClickKeepsWellFormed | ChessGame.java:146-156 | every click keeps the game well formed: pieces on their squares, each piece in one cell only, at most one king per side, kings home while their flags are clear, and the en-passant pawn still on the square it records |
| ChessGame.PromotionOverwritten | ChessGame.java:219-231 | whatever piece the promotion dialog places on the target, `movePiece` then puts the pawn there, so the board is as if no promotion happened |
| ChessGame.CastlingFindsRook | ChessGame.java:209-214 | a valid castling move stays on the king's row, the king has not moved, and an unmoved rook stands in that corner |
| ChessGame.PlayedKeepsPlaced | ChessGame.java:176-178 | special moves followed by `movePiece` keep every piece on the square it records |
| ChessGame.PlayedAlike | ChessGame.java:176-178 | playing the same move on boards that differ only in probe traces gives boards that differ only in probe traces |
| ChessGame.PlayedKeepsKingsHome | ChessGame.java:261-274 | after a move, every king whose moved flag is still clear is on its home square, with the updated flags |
| ChessGame.ChosenMoveKeeps | ChessGame.java:176-179 | the board after a valid move is well formed and keeps unmoved kings at home |
| ChessGame.PlayedKeepsIdentities | ChessGame.java:176-214 | castling, an en-passant capture and `movePiece` keep every piece in one cell only and at most one king per side |
| ChessGame.ValidMoveKeepsIdentities | ChessGame.java:172-265 | after a valid move each piece is in one cell, each side has at most one king, and the new en-passant pawn is the piece on the target |
| ChessGame.ChosenMoveKeepsIdentities | ChessGame.java:172-265 | a valid move of the selected piece leaves each piece in one cell, at most one king per side, and the en-passant flag naming the piece on the target |
| ChessGame.IdentitiesAlike | ChessGame.java:343-373 | the probes' traces change no identity, king or en-passant pawn |
| ChessGame.CheckMeansOwnKingAttacked | ChessGame.java:455-466 | in a game in play the side to move has exactly one king, so `isCheck` holds iff that king's square is attacked |
| ChessGame.ProbeThenPlay | ChessGame.java:176-178 | playing the move on the board the validity probe left gives the same position (up to traces) as playing it on the original board, with the same moved piece |
| ChessGame.ValidMoveSetup | ChessGame.java:172-183 | a valid move runs the post-move logic on a board alike to the special moves plus `movePiece` applied to the original board |
| ChessGame.ValidMoveHandsOver | ChessGame.java:172-183 | after a valid move the turn passes to the other side, nothing is selected or highlighted, the flags are updated, and the game stays well formed |
| ChessGame.ValidMovePlayed | ChessGame.java:176-179 | after a valid move the board is, up to probe traces, the special moves plus `movePiece` applied to the board before the click |
| ChessGame.ValidMoveFlags | ChessGame.java:262-274 | after a valid move the en-passant pawn is set iff a pawn moved two rows; the mover's king flag is set iff it was set or the king moved; the other side's flag is unchanged |
| ChessGame.ValidMoveSquares | ChessGame.java:172-183 | after a valid move the mover stands on the target, the origin is empty, and a set en-passant pawn is the piece just moved |
| ChessGame.PlayedPlacesMover | ChessGame.java:177-178 | the move puts the moved piece on the target and empties its origin |
| ChessGame.CastlingMovesRook | ChessGame.java:188-214 | castling moves the king two files and the corner rook to file 5 (kingside) or 3 (queenside), emptying both starting squares |
| ChessGame.EnPassantRemovesPawn | ChessGame.java:194-198 | en passant empties the square the vulnerable pawn records as its own; only the origin, target and that square change |
| ChessGame.EpVictimBeside | ChessGame.java:569-575 | the pawn an en-passant capture takes is the vulnerable pawn object, found beside the capturing pawn on the target's file |
| ChessGame.EnPassantTakesPawnBeside | ChessGame.java:194-198 | in a game, an en-passant capture empties the cell beside the capturing pawn on the target's file, where the vulnerable pawn stands, and the origin. The pawn lands on the target; nothing else changes |
| ChessGame.PlainMoveKeepsKingSafe | ChessGame.java:176-178 | an ordinary valid move yields exactly the simulated position, so the mover's king is not left in check |
| ChessGame.PostMoveHandsOver | ChessGame.java:261-278 | the post-move logic flips the turn, updates the flags, clears the selection, and touches the board only through probes |
| ChessGame.PostMoveWellFormed | ChessGame.java:261-289 | the post-move logic yields a well-formed game |
| ChessGame.PostMoveNoKing | ChessGame.java:399-402 | if the side to move has no king, `isCheck` dereferences null: the game crashes |
| ChessGame.PostMoveQuiet | ChessGame.java:276-281 | if the side to move is not in check, play continues with the caption "White's turn" or "Black's turn" |
| ChessGame.PostMoveCheck | ChessGame.java:280-288 | in check, with no pawn of the checked side on its last rank, the game ends with the mover as winner and the checkmate dialog's text (the label itself still reads "Check!") iff the checked side has no valid move; otherwise play continues with the caption "Check!" |
| ChessGame.PostMoveCrash | ChessGame.java:280-288 | the post-move logic crashes only if the side to move has no king or has a pawn on its last rank |
| ChessGame.ValidMoveMates | ChessGame.java:280-288 | after a valid move that gives check, the game ends iff the opponent has no valid move; otherwise play continues |
| ChessGame.ValidMoveContinues | ChessGame.java:280-288 | after a valid move that does not give check, play continues; the game crashes only when the opponent has no king or a last-rank pawn |
| ChessGame.InitialKing | ChessGame.java:302-321 | in the initial position every piece records its own square, and the kings are exactly on e1 (row 0) and e8 (row 7), white and black |
| ChessGame.NewGameWellFormed | ChessGame.java:302-321 | the new game is well formed (each piece in one cell, no en-passant pawn), White moves first, and each side has exactly one king, on its home square |
| ChessGame.InitialIdsDistinct | ChessGame.java:302-321 | the 32 pieces of the starting board are 32 distinct objects |
| StudyPlanner.ValidateTime | CREATE.java:149-157 | `validateTime` gives an hour from 1 to 7 at weekends and from 3 to 8 on weekdays, never -1 |
| StudyPlanner.ValidateTimeCovers | CREATE.java:149-157 | every hour of the day's range comes from exactly one draw |
| StudyPlanner.ReadForm | CREATE.java:114-135 | the form is refused for a subject that is blank after trimming, or a time that `Integer.parseInt` rejects after trimming, and never for the start hour. Otherwise it yields the session with trimmed subject, parsed time, chosen priority, date and start hour |
| StudyPlanner.AddSession | CREATE.java:114-142 | refused forms change nothing. An accepted form appends exactly one session to `sessions` and its line to the list model, keeping every earlier session in place |
| StudyPlanner.AddSessionKeepsOk | CREATE.java:127-137 | with a combo-box priority, every session keeps a priority from 1 to 5 and a start hour from 1 to 8 |
| StudyPlanner.FilledFormAccepted | CREATE.java:114-135 | a non-blank subject and a parseable time are all `addStudySession` needs to succeed |
| StudyPlanner.PrecedesTotalPreorder | CREATE.java:162-164 | the comparator (priority descending, date ascending, start hour ascending) is total and transitive |
| StudyPlanner.Insert | CREATE.java:162-164 | inserting into an ordered schedule keeps it ordered and adds exactly that session |
| StudyPlanner.Sort | CREATE.java:162-164 | the sort yields an ordered permutation of the sessions, and it is stable like `List.sort`: sessions with equal priority, date and start hour keep the order they were added in |
| StudyPlanner.InsertTied | CREATE.java:162-164 | inserting a session puts it behind every session with its key, so each group of tied sessions keeps its order |
| StudyPlanner.SortUnique | CREATE.java:162-164 | an ordered list whose tied groups are those of the input is the sort's result, so order and stability fix the displayed schedule |
| StudyPlanner.SortIdempotent | CREATE.java:162-164 | sorting a schedule already in order leaves it unchanged |
| StudyPlanner.SortTwice | CREATE.java:162-164 | sorting twice is sorting once |
| StudyPlanner.GenerateSchedule | CREATE.java:159-168 | `generateSchedule` orders the sessions, drops and adds none, keeps sessions with equal keys in the order they were added, and refills the list model with one line per session in the new order |
| StudyPlanner.ScheduleKeepsAddedSession | CREATE.java:137-168 | the generated schedule lists the added session together with every earlier one, each as often as before |
| StudyPlanner.RandomizeInputs | CREATE.java:170-178 | the randomized form has a subject from the list, a time text that parses to a multiple of 15 from 15 to 60, a priority index 0..4 and a date within the coming week |
| StudyPlanner.SubjectUntrimmed | CREATE.java:171 | every subject of the list survives `trim` unchanged |
| StudyPlanner.RandomizedInputsAccepted | CREATE.java:170-178 | `addStudySession` always accepts the form as `randomizeInputs` fills it |
| GuessMe.GenerateRandomNumber | GuessMe.java:47-50 | the secret lies between 1 and 100 |
| GuessMe.EverySecretPossible | GuessMe.java:47-50 | every number from 1 to 100 can be the secret |
| GuessMe.Submit | GuessMe.java:76-101 | Enter on the field, by outcome: a disabled field or unparseable text keeps attempts and enablement; a correct guess disables without using an attempt; a wrong guess uses exactly one and disables at zero; otherwise the hint is "Too low!" iff the guess is below the secret |
| GuessMe.ShowGameScreenConsistent | GuessMe.java:52-74 | every game screen starts with five attempts and an enabled field |
| GuessMe.SubmitConsistent | GuessMe.java:84-95 | attempts stay between 0 and 5, and the field is enabled only while attempts remain |
| GuessMe.PlayCountsAttempts | GuessMe.java:76-101 | over any run of submissions, attempts drop by exactly the number of counted wrong guesses, which never exceeds the attempts available; a disabled screen never changes |
| GuessMe.FirstGuessWins | GuessMe.java:84-86 | guessing the secret at once ends the game with all five attempts left |
| TowerDefense.NewTower | BTD2.java:547-624 | a new tower stands where it was placed with all upgrade levels 0. The basic tower has range 100, damage 20 and fire rate 60; the sniper 150, 3 and 0; the rapid-fire 90, 1 and 0; the shotgun 80, 1 and 0 |
| TowerDefense.StartNewRound | BTD2.java:175-178 | a new round schedules four enemies per round number after a full 10-frame delay, changing nothing else |
| TowerDefense.SpawnHealth | BTD2.java:180-191 | a spawned enemy's health is 50 + 15 per round, tripled for a boss (draw 0-1), halved with truncation for a fast one (draw 2-3) |
| TowerDefense.SpawnStep | BTD2.java:205-212 | the spawn countdown drops by the speed multiplier; at zero or below one enemy spawns and the counter resets to 10; enemies spawned plus still to spawn stay constant |
| TowerDefense.EscapesCount | BTD2.java:234-241 | each escaped enemy costs exactly one life and is removed; game over is set iff lives reach 0 or below; money and round are untouched |
| TowerDefense.KillsCount | BTD2.java:254-258 | each kill removes one enemy and pays 75 + 10 x round, plus 20 when well positioned; lives are untouched |
| TowerDefense.SumRewardsBounds | BTD2.java:255-256 | a run of kills pays between 75 + 10 x round and 95 + 10 x round per kill |
| TowerDefense.FrameBookkeeping | BTD2.java:195-271 | one frame: lives drop by the escapes, money rises by the kill rewards, game over iff lives reach 0; the round advances iff no enemy is alive and none is left to spawn, and then the next round is scheduled |
| TowerDefense.FrameFrozen | BTD2.java:196-203 | a paused or finished game does not change on a frame |
| TowerDefense.FrameKeepsSpawnOk | BTD2.java:204-212 | frames keep the spawn counter in 1..10, the count to spawn non-negative, the speed at 1 or 2 and the round at least 1 |
| TowerDefense.CanPlaceFromMeans | BTD2.java:370-379 | the placement loop from tower k on accepts iff every later tower is at least 50 away, squared distances compared |
| TowerDefense.CanPlaceTowerMeans | BTD2.java:370-379 | `canPlaceTower` holds iff every existing tower has dx² + dy² at least 50² from the spot |
| TowerDefense.TowerAt | BTD2.java:403-410 | a left click picks the first tower (in placement order) whose 20-pixel disc contains the cursor, or none when no tower does |
| TowerDefense.Restart | BTD2.java:356-368 | restarting sets money 400, lives 15, round 1, no towers, no enemies, no upgrade panel, not over, and four enemies to spawn after a full delay |
| TowerDefense.RestartOk | BTD2.java:356-390 | after game over, a click on the restart button starts a game with consistent spawn state and panel and 400 money, keeping the pause flag and the selected shop tower, at the speed the toggle shows |
| TowerDefense.RightClickBuys | BTD2.java:411-439 | a right click on the field buys exactly one tower of the selected type and deducts its price (120/180/150/200) iff the spot is off the path, 50 away from every tower and affordable; otherwise nothing changes |
| TowerDefense.ClickKeepsPanel | BTD2.java:403-410 | a left click opens the panel of a tower under the cursor whenever there is one, and never points the panel at a missing tower; towers and money do not change |
| TowerDefense.NewGameOk | BTD2.java:111-123 | a new game starts with 100000 money, 15 lives, round 1, four enemies to spawn and a consistent spawn state |
| TowerDefense.KeyP | BTD2.java:471-477 | P toggles the pause and changes nothing else |
| TowerDefense.SpeedToggle | BTD2.java:162-164 | the speed multiplier is 2 exactly when the toggle is selected, 1 otherwise |
| TowerDefense.Upgrade | BTD2.java:515-540 | the upgrade buttons keep the panel on its tower and the tower count unchanged; Close closes the panel and changes nothing else |
| TowerDefense.UpgradeCharges | BTD2.java:503-536 | any upgrade button keeps every level at most 5, never raises money or takes it below zero, and changes only the panel's tower. Below level 5 and when affordable, each button charges 50 + 25 x its level and raises that level by one: damage adds 10, range adds 15, and fire rate takes 5 off a fire rate above 20 and otherwise leaves it. At level 5 or when unaffordable a button changes nothing |
| TowerDefense.FireRatePresses | BTD2.java:530-549 | on a new basic tower, n fire-rate upgrades (n at most 5) cost the sum of their prices and leave fire rate 60 - 5n, never below 35 |
| TowerDefense.FireRateUpgradeIsIdle | BTD2.java:530-536 | on a tower with fire rate 0 a fire-rate upgrade charges money and raises the level but changes nothing else |
| TowerDefense.DamagePresses | BTD2.java:516-522 | n affordable damage upgrades in a row cost the sum of their level prices and add 10 x n damage and n levels |
| TowerDefense.FullUpgradeCosts500 | BTD2.java:503-505 | upgrading one stat from level 0 to 5 costs 500 in total |
| NewStart.Clamp | NewStart.java:246-247 | `Math.max(lo, Math.min(v, hi))` lies in [lo, hi], is v when v is inside, and the nearer bound otherwise |
| NewStart.Update | NewStart.java:242-248 | after `update` the player is within x 0..1250 and y 0..690, moved by exactly its velocity when that stays inside; nothing but the position changes |
| NewStart.UpdateIsNearest | NewStart.java:242-248 | the clamped position is the point of the arena nearest, on each axis, to where the velocity would have taken the player |
| NewStart.UpdateStill | NewStart.java:242-248 | a player at rest inside the arena does not move |
| NewStart.KeyPressed | NewStart.java:253-271 | W/Up sets dy to -5 and faces up; S/Down sets dy to 5 and faces down; A/Left sets dx to -5 and faces left; D/Right sets dx to 5 and faces right; other keys change nothing |
| NewStart.KeyReleased | NewStart.java:272-280 | releasing a vertical key zeroes only dy, a horizontal key only dx, any other key nothing |
| NewStart.PressThenRelease | NewStart.java:253-280 | pressing then releasing a movement key stops that axis, keeps the other, and leaves the player facing one of the four directions |
| NewStart.EventsKeepVelocityOk | NewStart.java:253-280 | key events and `update` keep each velocity component at 0 or ±5 and the facing one of "up", "down", "left", "right" |
| NewStart.NewBullet | NewStart.java:397-408 | a bullet starts where it is fired and flies at speed 8 along one axis: up, down or left for those facings, and right for "right" or any other string |
| NewStart.Fire | NewStart.java:203-211 | Space adds one bullet from the player's centre (x + 15, y + 15) in the facing direction; other keys add none; every key reaches the player's handler |
| NewStart.FireAlongLastKey | NewStart.java:203-211 | a bullet fired after a movement key flies the way that key moves the player |
| NewStart.AddExp | NewStart.java:284-291 | `addExp` levels up at most once: if the new experience reaches 100 x level, the level rises by one and the threshold is deducted, otherwise only experience grows |
| NewStart.AddExpKeepsTotal | NewStart.java:284-291 | gaining experience loses none: the total (experience spent on levels plus experience held) grows by exactly the amount |
| NewStart.AddExpOneLevelAtATime | NewStart.java:284-291 | 350 experience on a new player gives level 2 with 250 left, already past the next threshold |
| NewStart.AddExpBelowThreshold | NewStart.java:284-291 | gains of at most one threshold plus 100 keep experience below the current threshold |
| NewStart.SpawnAt | NewStart.java:141-143 | one 20x20, speed-2 enemy per position draw, at that position, inside the arena |
| NewStart.SpawnWave | NewStart.java:138-144 | `spawnWave` replaces the enemies with exactly 2 x wave number of them |
| NewStart.WavesGrow | NewStart.java:188-196 | after a cleared wave the wave number rises by one and the new wave has two enemies per wave number; the level-up dialog does not change the player's level |
| NewStart.NewArenaOk | NewStart.java:123-136 | the game panel starts at wave 1 with two enemies and a player at rest at level 1 inside the arena |
| NewStart.Apply | NewStart.java:332-335 | the upgrades' integer effects: damage +5; max HP and current HP +10 each; dodge +5; attack speed touches no integer statistic |
| NewStart.ApplyKeepsMissingHP | NewStart.java:333 | no upgrade changes the missing HP, so current HP never exceeds max HP |
| NewStart.GenerateUpgrades | NewStart.java:330-338 | the dialog offers three upgrades |
| NewStart.PoolOnce | NewStart.java:331-335 | the pool holds each of the four upgrades exactly once |
| NewStart.ShuffleDistinct | NewStart.java:336 | any shuffle of the pool has four distinct upgrades |
| NewStart.OfferAllButOne | NewStart.java:336-337 | the three offered upgrades are distinct, and an upgrade is offered iff the shuffle did not put it last |
| MathHomework.NumOperandsSteps | MathHomeworkGenerator.java:429-431 | `2 + (scale - 1) / 4` is 2 for complexity 1..4, 3 for 5..8 and 4 for 9..10 |
| MathHomework.AdditionFacts | MathHomeworkGenerator.java:433-447 | an addition question shows one operand per operand count and expects their sum, which is at most the count times 100 x scale - 1 |
| MathHomework.SubtractionFacts | MathHomeworkGenerator.java:449-465 | the first number is the subtrahends plus the extra draw, so the expected answer (the extra) is non-negative, below 50 x scale, and equals first minus subtrahends |
| MathHomework.MultiplicationFacts | MathHomeworkGenerator.java:467-481 | every factor lies in 1..10 x scale and the answer is their product |
| MathHomework.ProductFitsInt | MathHomeworkGenerator.java:467-481 | the product never exceeds 10^8, so the Java `int` product does not overflow |
| MathHomework.DivisionFacts | MathHomeworkGenerator.java:483-490 | the divisor is at least 1, the dividend is divisor x answer, and the division is exact |
| MathHomework.EquationFacts | MathHomeworkGenerator.java:492-505 | x = total - sumOthers equals the extra draw, so 0 <= x < 50 x scale |
| MathHomework.SquaringFacts | MathHomeworkGenerator.java:507-512 | the answer is the square of a draw below 20 x scale |
| MathHomework.AnswerFits | MathHomeworkGenerator.java:428-512 | every integer question's expected answer solves the question shown and lies in 0..10^8 |
| MathHomework.AnswerReadsBack | MathHomeworkGenerator.java:428-512 | `Integer.parseInt` of every expected answer text gives the answer back |
| MathHomework.FormatTime | MathHomeworkGenerator.java:421-425 | for a non-negative time the caption has at least five characters with ':' third from the end |
| MathHomework.FormatTimeReadsBack | MathHomeworkGenerator.java:421-425 | for s >= 0 the caption is minutes (at least two digits) and seconds (two digits, below 60) that recombine to s |
| MathHomework.FormatTimeNegative | MathHomeworkGenerator.java:421-425 | a negative time is split with truncating division: -75 seconds reads "-1:-15" |
| MathHomework.Types | MathHomeworkGenerator.java:347-356 | the type list holds exactly the ticked question types, fraction, exponent and percentage included, in check-box order and each once, so it is as long as the ticked set (only the integer kinds are modelled further) |
| MathHomework.PlanTest | MathHomeworkGenerator.java:338-371 | `generateTest` refuses an unparseable count, then an empty type selection, then (with the timer on) an unparseable duration; otherwise it plans max(count, 0) questions from exactly the ticked types, one list entry per ticked type (the range of the type draw at line 397), with the parsed duration iff the timer is on |
| MathHomework.TestHasRequestedQuestions | MathHomeworkGenerator.java:396-400 | a planned test has exactly the requested number of questions, each of a ticked type |
| JavaText.ParseIntToString | GuessMe.java:80 | `Integer.parseInt` reads back every `int` that `Integer.toString` writes |
| JavaText.Trim | CREATE.java:115 | `trim` yields a middle slice `s[a..b]` of the text with only blank characters cut off before `a` and after `b`; the result is empty iff the text is all blanks, otherwise it starts and ends with non-blanks, and text without blank ends is unchanged |
| JavaText.Pad2 | MathHomeworkGenerator.java:424 | `%02d` of a non-negative number is at least two digits that read back as the number |

## Left out

- Swing and AWT: frames, painting, dialogs, listeners, timers, `System.exit`. Clicks and keys are plain inputs, and text fields arrive as strings.
- Randomness: every `Random.nextInt`, `Math.random` and `Collections.shuffle` result is a parameter with its range as a precondition.
- Floating point:
  - BTD2.java's enemy and projectile motion, targeting, hits, `isWellPositioned` and `isNearPath` arrive as per-frame counts and flags.
  - NewStart.java's `Enemy.update`, attack speed and `randomRarity` are not modelled.
  - MathHomeworkGenerator.java's percentage question, `evaluateAnswers` and the score are not modelled.
- BTD2.java's projectile list, tower cooldowns and the shotgun spread are not modelled: they only decide which kills happen, and kills are inputs.
- Chess stalemate, draw rules, and castling out of, through or into check are not implemented in the source, so they are not modelled either.
- Chess pawn promotion: the dialog's piece is overwritten by the pawn in `movePiece`. ChessGame.PromotionOverwritten proves this, and the rest of the model plays moves without it.
- The "20 legal moves from the initial position" count is not proved. It would need the full move generator evaluated on a concrete board, which is too costly for the verifier.
- After a crash, the Java program stops responding to its event (an exception in the listener), and the model ends in a `Crashed` status instead. The cases are a null king in `isCheck`, and a pawn on its last rank in `getValidMoves`.
- CREATE.java's `formatSession` text and the `Date`/`ZoneId` conversion are left out. Dates are day numbers counted from 1970-01-01, and a list-model line is represented by its session.
- MathHomeworkGenerator.java's fraction and exponent questions are left out, and so is question-text rendering, including the `sb.insert(8, …)` of the subtraction text. The countdown timer and wall-clock timing are left out too.
- NewStart.java's bullet motion, bullet-enemy collision, player HP loss and the `waveTransition` flag are left out. So is closing the level-up dialog without choosing: NextWave always applies one upgrade.
- PETA.java is not part of this model: file I/O, hashing and floating-point amounts.
- NewStart.AddExp: does not model 32-bit overflow of `exp`, because the modelled amounts stay far below 2^31.
- MathHomework.CreateQuestion: its own contract states only the question kind; the answers are stated per kind by the `...Facts` lemmas and MathHomework.AnswerFits.
- NewStart.GenerateUpgrades: its own contract states only that three upgrades are offered; distinctness and which one is missing are stated by NewStart.OfferAllButOne.
- TowerDefense.KillsCount: `money` is unbounded; the Java `int` would wrap once kill rewards pushed it past 2^31 - 1, and no proof bounds money over many rounds.
- TowerDefense.SpawnHealth: does not model 32-bit wrap-around of `(50 + round * 15) * 3`, which rounds beyond about 47 million would cause; no proof bounds the round number.
- JavaText.ParseInt: accepts only the ASCII digits 0-9, while `Integer.parseInt` also accepts the other Unicode decimal digits that `Character.digit` knows.
