# Xiangqi engine and tournament core, modelled in Dafny

This project models the rules engine and computer opponent of a Xiangqi (Chinese chess) web game, and the deterministic part of its tournament mode. The model follows the rules as this code implements them, not the official rules: there is no "flying general" rule and no repetition rule. It covers:

- **The starting position.** The 10x9 board and the 32-entry set-up table that `createInitialBoard` writes (module `Setup`).
- **Move rules** (`GameLogic`, `MoveRules`). `getValidMoves` gives the pseudo-legal destinations of all seven piece kinds; `isInCheck` is the check test.
- **FEN text** (`Fen`). `boardToFen` writes a position as FEN-style text.
- **Move generation** (`MoveGen`). It covers the generator, capture-first ordering, and make/unmake on the board in place.
- **Static evaluation** (`Evaluation`). A position scores its material plus piece-square tables.
- **Search.** `Search` does iterative-deepening negamax alpha-beta with fail-hard windows, mate and stalemate scores, and capture-only quiescence. Module `SearchSpec` holds the reference values (negamax, quiescence, fail-hard value) and `AiSearch` the searching class.
- **Difficulty and engine** (`DifficultyControl`, `Engine`). These cover difficulty tuning and the engine facade that clones the board and searches the copy.
- **Tournaments.**
  - Team creation and the league round robin (`Tournament`, with index arithmetic in `RoundRobin`).
  - Cup groups (`Cup`) and the knockout bracket (`Knockout`).
  - Best-of-three match simulation (`Simulation`).
  - The standings table (`Standings`).
  - Shared helpers: a stable sort (`Sorting`) and decimal text of numbers (`Decimal`).

How the two layers fit:

- **Imperative code stays imperative.** The source's imperative code is written as Dafny methods that work the way the source does:
  - the board is an `array2<Cell>` that make/unmake overwrites;
  - move lists are accumulated in loops;
  - the search is a class whose fields (`startTime`, `timeLimit`, `nodesVisited`, `stopSearch`) change across recursive calls.
- **Each method is proved equal to a function**, stated on the value `Snapshot(board)`. The properties the game relies on are proved as lemmas about those functions:
  - exact characterisations of every piece's moves (both directions);
  - the make/unmake round trip;
  - colour-mirror antisymmetry of the evaluation;
  - the fail-hard window;
  - the circle method's every-pair-meets-once;
  - consistency of the standings.

Two behaviours of the code are modelled as written:

- **An odd-sized league schedules self-matches.** `generateLeagueSchedule` loops `i < n / 2` in real arithmetic. For an odd number of teams, every round gets one match of a team against itself (`Tournament.LeagueOddSelfMatch`). The game uses 20 teams for a league.
- **League standings never change.** `updateStandings` counts only matches whose stage name contains "Bảng" (the group stage). League matches are named "Vòng n", so league standings stay at zero in the order given, whatever the results (`Standings.LeagueStandingsIdle`).

## Model

| member | source | states |
|---|---|---|
| Types.SetCell | services/ai/MoveGenerator.ts:70-71 | writing a cell changes that cell and no other |
| Types.Snapshot | types.ts:36 | the value of a mutable board agrees with it cell by cell |
| Types.GridExt | types.ts:36 | two boards that agree on every cell are equal |
| Setup.CreateInitialBoard | constants.ts:66-79 | a fresh 10x9 board whose contents are exactly the set-up table placed entry by entry |
| Setup.NewEmptyBoard | constants.ts:67 | a fresh 10x9 array with every cell empty |
| Setup.PlaceAll | constants.ts:69-76 | placing the entries in table order yields the initial board |
| Setup.PlacedStep | constants.ts:69-76 | each entry's cell is on the board, and placing it writes that entry's piece there |
| Setup.PlaceEntry | constants.ts:69-76 | one iteration writes entry `index`'s piece to its cell and changes nothing else |
| Setup.SetupOnBoard | constants.ts:28-64 | the table has 32 entries, all on the board |
| Setup.SetupIndexOfEntry | constants.ts:28-64 | the closed-form cell lookup finds every entry at its own cell |
| Setup.SetupIndexSound | constants.ts:28-64 | every index the lookup yields names an entry on that cell |
| Setup.SetupPositionsDistinct | constants.ts:28-64 | the 32 entries occupy 32 distinct cells |
| Setup.SetupMirror | constants.ts:30-63 | entry k+16 is entry k's kind, Black, reflected to row 9-r |
| Setup.SetupIndexMirror | constants.ts:30-63 | the cell across the river holds the entry 16 places away |
| Setup.SetupGenerals | constants.ts:34 | only entries 4 and 20 are Generals |
| Setup.PlacedAt | constants.ts:69-76 | after n entries, a cell holds the piece of the entry placed there, else it is empty |
| Setup.InitialAt | constants.ts:66-79 | the initial board holds the table's piece on its cell and null elsewhere |
| Setup.InitialConsistent | constants.ts:70-75 | every piece's recorded position is the cell it is stored in |
| Setup.InitialGenerals | constants.ts:34 | exactly one General per colour: Red at (9,4), Black at (0,4) |
| Setup.InitialMirror | constants.ts:30-63 | the board is symmetric across the river with colours swapped |
| Setup.PieceIdIndex | constants.ts:71 | the table index can be read back from the id `color-type-index` |
| Setup.InitialIdsDistinct | constants.ts:71 | two pieces of the initial board with the same id stand on the same cell |
| Decimal.NatToString | utils/tournamentLogic.ts:42 | a number prints as at least one digit, one digit exactly below 10 |
| Decimal.NatToStringDigits | utils/tournamentLogic.ts:42 | the printed text holds digits only |
| Decimal.ParseNatToString | utils/tournamentLogic.ts:42 | reading the printed text back gives the number |
| Decimal.NatToStringInjective | utils/tournamentLogic.ts:42 | different numbers print differently |
| GameLogic.AddMoveOn | utils/gameLogic.ts:16-20 | `addMove` appends the cell exactly when it is on the board and not held by the mover's colour |
| GameLogic.PalaceLoop | utils/gameLogic.ts:23-43 | the General and Advisor step loops compute the palace-move function |
| GameLogic.ElephantStepOn | utils/gameLogic.ts:48-60 | one elephant step: river test, then board and eye tests |
| GameLogic.ElephantLoop | utils/gameLogic.ts:45-62 | the elephant loop computes its specification |
| GameLogic.HorseStepOn | utils/gameLogic.ts:76-84 | one horse jump: on the board and leg empty |
| GameLogic.HorseLoop | utils/gameLogic.ts:64-85 | the horse loop computes its specification |
| GameLogic.ChariotStepOn | utils/gameLogic.ts:91-103 | one square of a chariot ray extends the list or ends the ray |
| GameLogic.ChariotRayWalk | utils/gameLogic.ts:89-104 | the `while (true)` ray loop computes the ray function |
| GameLogic.ChariotRayLoop | utils/gameLogic.ts:89-104 | one ray appends exactly that ray's destinations |
| GameLogic.ChariotRayAccAppends | utils/gameLogic.ts:89-104 | the loop form of the chariot ray appends the ray's destinations |
| GameLogic.ChariotLoop | utils/gameLogic.ts:87-105 | the four-direction chariot loop computes the chariot specification |
| GameLogic.CannonStepOn | utils/gameLogic.ts:112-131 | one square of a cannon ray extends the list, sets `jumped`, or ends the ray |
| GameLogic.CannonRayWalk | utils/gameLogic.ts:110-132 | the cannon ray loop with its `jumped` flag computes the ray function |
| GameLogic.CannonRayLoop | utils/gameLogic.ts:110-132 | one cannon ray appends exactly that ray's destinations |
| GameLogic.CannonRayAccAppends | utils/gameLogic.ts:110-132 | the loop form of the cannon ray appends the ray's destinations |
| GameLogic.CannonRayAccAppendsJumped | utils/gameLogic.ts:118-130 | past the screen, the loop adds at most the first piece met |
| GameLogic.CannonLoop | utils/gameLogic.ts:107-133 | the four-direction cannon loop computes the cannon specification |
| GameLogic.GetValidMoves | utils/gameLogic.ts:11-152 | `getValidMoves` on the board equals the destination function for every piece kind |
| GameLogic.FindGeneralFrom | utils/gameLogic.ts:157-168 | a found position is on the board and holds that colour's General |
| GameLogic.RowGeneral | utils/gameLogic.ts:160-166 | one row of the General scan finds the first General in that row or passes on |
| GameLogic.LocateGeneral | utils/gameLogic.ts:157-168 | the nested scan with `break` yields the first General in row-major order, or none |
| GameLogic.RowHitBeforeIff | utils/gameLogic.ts:174-182 | the column scan of a row has found an attacker iff some earlier column attacks |
| GameLogic.HitBeforeIff | utils/gameLogic.ts:173-183 | the row scan has found an attacker iff some earlier row holds one |
| GameLogic.RowAttacks | utils/gameLogic.ts:174-182 | one row of the attack scan finds an enemy piece with the General's cell among its moves |
| GameLogic.IsInCheck | utils/gameLogic.ts:155-186 | `isInCheck` on the board equals the check predicate |
| MoveRules.PalaceMovesMember | utils/gameLogic.ts:23-43 | a palace move is exactly a listed step that stays in the palace on a target cell |
| MoveRules.GeneralRule | utils/gameLogic.ts:23-32 | exactly the orthogonal single steps that stay in the palace and are not on an own piece |
| MoveRules.AdvisorRule | utils/gameLogic.ts:34-43 | exactly the diagonal single steps that stay in the palace and are not on an own piece |
| MoveRules.ElephantStepMember | utils/gameLogic.ts:48-60 | one elephant step adds exactly the cells its tests allow |
| MoveRules.ElephantMovesMember | utils/gameLogic.ts:45-62 | elephant moves are exactly the steps its tests allow |
| MoveRules.ElephantOkSound | utils/gameLogic.ts:48-60 | an allowed step meets the closed-form elephant rule |
| MoveRules.ElephantOkComplete | utils/gameLogic.ts:48-60 | every cell the closed-form rule allows comes from a listed step |
| MoveRules.ElephantRule | utils/gameLogic.ts:45-62 | exactly the (±2,±2) steps with an empty on-board eye that do not cross the river and are not on an own piece |
| MoveRules.HorseMovesMember | utils/gameLogic.ts:64-85 | horse moves are exactly the jumps with on-board target and empty leg |
| MoveRules.HorseOkSound | utils/gameLogic.ts:76-84 | an allowed jump meets the closed-form horse rule |
| MoveRules.HorseOkComplete | utils/gameLogic.ts:76-84 | every cell the closed-form rule allows comes from a listed jump |
| MoveRules.HorseRule | utils/gameLogic.ts:64-85 | exactly the eight L-jumps whose leg (adjacent along the long axis) is on the board and empty, not on an own piece |
| MoveRules.ChariotRayMember | utils/gameLogic.ts:89-104 | a ray's destinations are the empty cells before the first piece, plus that piece if it is an enemy |
| MoveRules.CannonJumpedMember | utils/gameLogic.ts:118-130 | past the screen only the first piece counts, and only if it is an enemy |
| MoveRules.CannonRayMember | utils/gameLogic.ts:110-132 | a cannon ray's destinations are the empty cells before the screen, plus the first piece beyond it if it is an enemy |
| MoveRules.CannonScreenNotTarget | utils/gameLogic.ts:118-123 | the screen itself is never a destination |
| MoveRules.ChariotRule | utils/gameLogic.ts:87-105 | the chariot rule on all four rays, both directions |
| MoveRules.CannonRule | utils/gameLogic.ts:107-133 | the cannon rule on all four rays, both directions |
| MoveRules.SoldierRule | utils/gameLogic.ts:135-148 | one step forward, sideways steps only once across the river, never backward, at most 3 destinations |
| MoveRules.DestinationsAreTargets | utils/gameLogic.ts:4-20 | every destination is on the board and not held by the mover's colour; chariot and cannon stay on their row or column |
| MoveRules.FindGeneralSpec | utils/gameLogic.ts:157-170 | no General found iff that colour has none on the board, else the found cell holds it and no General of that colour comes before it in row-major order |
| MoveRules.FindGeneralFromFirst | utils/gameLogic.ts:157-168 | the scan from (r, c) stops at the first General at or after (r, c): none of that colour lies between |
| MoveRules.InCheckIff | utils/gameLogic.ts:155-186 | in check iff there is a General and some enemy piece's moves contain its cell |
| MoveRules.NoGeneralNoCheck | utils/gameLogic.ts:170 | a side without a General is never in check |
| Fen.RowToFenOn | utils/gameLogic.ts:193-218 | the inner loop with `emptyCount` produces the row's text |
| Fen.BoardToFenOn | utils/gameLogic.ts:190-225 | `boardToFen` on the board equals the text function |
| Fen.RowTextStep | utils/gameLogic.ts:195-215 | an empty cell adds to the pending run; a piece flushes the run and writes its letter |
| Fen.RowsDoneStep | utils/gameLogic.ts:192-219 | each row appends its text and a '/' except after the last row |
| Fen.PieceCharLetter | utils/gameLogic.ts:204-214 | a piece letter is upper case for Red and lower case for Black, never a digit |
| Fen.RowTextDigitsApart | utils/gameLogic.ts:199-217 | a row's text never holds two digits in a row |
| Fen.RowTextNoSeparators | utils/gameLogic.ts:193-217 | a row's text holds no '/' and no space |
| Fen.RowTextDecodes | utils/gameLogic.ts:193-217 | a row's text decodes to the kind and colour of each of its cells |
| Fen.BoardTextSplits | utils/gameLogic.ts:192-219 | split at '/', the board part gives back the row texts, and it holds no space |
| Fen.FenSegments | utils/gameLogic.ts:192-219 | ten segments, each spelling out nine cells, never two digits in a row |
| Fen.FenBoardRoundTrip | utils/gameLogic.ts:190-219 | decoding the board part recovers kind and colour of every cell |
| Fen.BoardTextIsRowTexts | utils/gameLogic.ts:192-219 | splitting the board part at '/' gives exactly the row texts in order, and no space occurs in it |
| Fen.FenLayout | utils/gameLogic.ts:223 | the text is the board part, a space, 'w' or 'b', then " - - 0 1" |
| Fen.FenDetermines | utils/gameLogic.ts:190-225 | equal texts mean equal kinds and colours on every cell and the same side to move |
| MoveGen.MovesFrom | services/ai/MoveGenerator.ts:14-19 | one move from the piece's cell per destination, in order |
| MoveGen.CellMovesOn | services/ai/MoveGenerator.ts:11-20 | a cell contributes its piece's moves when the piece belongs to the side to move |
| MoveGen.RowMovesOn | services/ai/MoveGenerator.ts:10-21 | one row's moves, left to right |
| MoveGen.GenerateMovesOn | services/ai/MoveGenerator.ts:6-24 | `generateMoves` on the board equals the row-major generation function |
| MoveGen.GenerateMovesMember | services/ai/MoveGenerator.ts:6-24 | a move is generated iff it starts on a piece of the side to move and ends on one of its destinations |
| MoveGen.MakeMove | services/ai/MoveGenerator.ts:60-74 | the mover, now recording `to`, lands on `to`, `from` is emptied, the old occupant of `to` is returned; nothing happens from an empty cell |
| MoveGen.UnmakeMove | services/ai/MoveGenerator.ts:77-88 | the piece on `to` goes back to `from` recording `from`, and `to` gets the captured cell |
| MoveGen.ApplyMoveFrame | services/ai/MoveGenerator.ts:60-74 | a move changes only its two cells |
| MoveGen.MakeUnmakeRoundTrip | services/ai/MoveGenerator.ts:60-88 | on a consistent board, unmake after make restores the board exactly |
| MoveGen.ApplyMoveConsistent | services/ai/MoveGenerator.ts:66-71 | making a move keeps every recorded position right |
| MoveGen.ApplyMoveFromEmpty | services/ai/MoveGenerator.ts:64 | a move from an empty cell changes nothing |
| MoveGen.ApplyMoveCount | services/ai/MoveGenerator.ts:60-74 | the piece count drops by one exactly for a capture |
| MoveGen.MoveScore | services/ai/MoveGenerator.ts:36-57 | a quiet move scores 0, a capture at least 1000 (ten times the victim's value) |
| MoveGen.InsertAt | services/ai/MoveGenerator.ts:29-33 | one insertion step keeps the prefix sorted and the elements the same |
| MoveGen.SortByKey | services/ai/MoveGenerator.ts:29-33 | the array comes out ordered by descending key and is a permutation of the input |
| MoveGen.SortMoves | services/ai/MoveGenerator.ts:28-34 | `sortMoves` orders by non-increasing move score and permutes the moves |
| MoveGen.CapturesFirst | services/ai/MoveGenerator.ts:28-57 | after sorting, every capture precedes every quiet move and more valuable victims come first |
| Evaluation.Pst | services/ai/Evaluation.ts:117-125 | every table of `PST_MAP` is 10x9 with entries in [-15, 60] |
| Evaluation.SoldierTableShape | services/ai/Evaluation.ts:20-31 | the soldier table is 10x9 |
| Evaluation.ChariotTableShape | services/ai/Evaluation.ts:34-45 | the chariot table is 10x9 |
| Evaluation.HorseTableShape | services/ai/Evaluation.ts:48-59 | the horse table is 10x9 |
| Evaluation.CannonTableShape | services/ai/Evaluation.ts:62-73 | the cannon table is 10x9 |
| Evaluation.AdvisorTableShape | services/ai/Evaluation.ts:76-87 | the advisor table is 10x9 |
| Evaluation.ElephantTableShape | services/ai/Evaluation.ts:90-101 | the elephant table is 10x9 |
| Evaluation.GeneralTableShape | services/ai/Evaluation.ts:104-115 | the general table is 10x9 |
| Evaluation.CellScoreOn | services/ai/Evaluation.ts:135-163 | one cell adds value plus table entry for Red, subtracts it (row mirrored) for Black |
| Evaluation.RowScoreOn | services/ai/Evaluation.ts:134-164 | the inner loop adds the row's sum |
| Evaluation.EvaluateBoardOn | services/ai/Evaluation.ts:127-186 | `evaluateBoard` on the board equals the evaluation function, whatever `turn` is |
| Evaluation.ScoreIsRedMinusBlack | services/ai/Evaluation.ts:133-165 | the score is the Red total (row r) minus the Black total (row 9-r) |
| Evaluation.EmptyScoresZero | services/ai/Evaluation.ts:128 | a board without pieces scores 0 |
| Evaluation.CellScoreBounded | services/ai/Evaluation.ts:5-13 | one cell contributes at most a General on its best square |
| Evaluation.EvaluateBounded | services/ai/Evaluation.ts:127-186 | every position scores within ±905400 |
| Evaluation.CellScoreSign | services/ai/Evaluation.ts:155-163 | a Red piece always adds, a Black piece always subtracts |
| Evaluation.SetCellScore | services/ai/Evaluation.ts:133-165 | changing one cell changes the score by exactly that cell's difference |
| Evaluation.RemovalScore | services/ai/Evaluation.ts:133-165 | removing a Black piece raises the score, removing a Red one lowers it |
| Evaluation.MirrorNegates | services/ai/Evaluation.ts:149-163 | mirroring rows and swapping colours negates the score |
| Evaluation.InitialScoreZero | services/ai/Evaluation.ts:149-163 | the initial position scores 0 |
| Evaluation.GlyphsDetermineScore | services/ai/Evaluation.ts:135-163 | the score reads only the kind and colour of each cell |
| Evaluation.FenDeterminesScore | utils/gameLogic.ts:190-225 | two positions with the same FEN text have the same score |
| Folds.BestByUpper | services/ai/Search.ts:84-91 | every value the fold sees is at most its result |
| Folds.BestByWitness | services/ai/Search.ts:84-87 | the fold's result is the value of some element |
| Folds.BestBySame | services/ai/Search.ts:46-52 | reordering the list (the sorts) does not change the fold |
| Folds.BestByFilter | services/ai/Search.ts:190 | dropping moves that are skipped anyway does not change the fold |
| Folds.RaiseStep | services/ai/Search.ts:144-149 | below beta, the running alpha follows the fold exactly |
| Folds.ClampNegate | services/ai/Search.ts:138 | negating a score mirrors the window |
| SearchSpec.NegamaxBestLegal | services/ai/Search.ts:124-158 | the fold has a value iff some generated move is legal |
| SearchSpec.AlphaBetaValueClamp | services/ai/Search.ts:100-161 | within its window the fail-hard value clamps to the negamax value |
| SearchSpec.AlphaBetaValueWindow | services/ai/Search.ts:144-160 | with a legal move (or at the horizon) the value lies in [alpha, beta]; with none it is -MATE_SCORE + (100 - depth) in check, else 0 |
| SearchSpec.QuiesceBounded | services/ai/Search.ts:163-230 | quiescence values stay within the evaluation bound |
| SearchSpec.NegamaxBounded | services/ai/Search.ts:100-161 | negamax values stay within the evaluation bound up to depth 100000 |
| SearchSpec.NegamaxCutoff | services/ai/Search.ts:144-146 | a move whose value reaches beta makes the result exactly beta |
| SearchSpec.NegamaxFoldDone | services/ai/Search.ts:150-160 | without a cutoff: the mate or stalemate score if nothing was legal, else alpha raised by the best value |
| SearchSpec.QuiesceStandCut | services/ai/Search.ts:178-182 | a stand-pat score at or above beta makes the result beta |
| SearchSpec.QuiesceCutoff | services/ai/Search.ts:221-223 | a capture whose value reaches beta makes the result beta |
| SearchSpec.QuiesceFoldDone | services/ai/Search.ts:183-229 | without a cutoff: alpha raised by stand-pat and by the best legal capture |
| SearchSpec.RootChildExact | services/ai/Search.ts:80-91 | at the root a legal child's score raises alpha iff its negamax value does, and then equals it |
| SearchSpec.RootStep | services/ai/Search.ts:84-91 | the two updates after a legal root reply (best move and score, alpha) fold that child's negamax value into the best so far |
| SearchSpec.NodeStep | services/ai/Search.ts:144-149 | a legal reply scoring at least beta makes the node's value beta; otherwise raising alpha tracks the folded negamax values, which stay below beta |
| SearchSpec.CaptureStep | services/ai/Search.ts:220-225 | the same for a legal capture in quiescence: beta on a cutoff, else alpha tracks the folded capture values |
| SearchSpec.RootFoldDone | services/ai/Search.ts:57-97 | the root fold is empty iff no move is legal, else it is the negamax value |
| SearchSpec.XiangqiIsXiangqi | services/ai/Search.ts:2-4 | the search's collaborators are the move generator, check test and evaluation |
| SearchSpec.GeneratedPlayable | services/ai/MoveGenerator.ts:6-24 | every generated move starts on a piece of the side to move and ends elsewhere on the board |
| AiSearch.SortedCopy | services/ai/Search.ts:46-52 | the sort orders by the comparator's key and permutes the moves |
| AiSearch.FilterCaptures | services/ai/Search.ts:190 | the filter keeps exactly the moves onto occupied cells, in order |
| AiSearch.Search.constructor | services/ai/Search.ts:9-13 | fields start at 0 and false, with the clock injected |
| AiSearch.Search.ShouldStop | services/ai/Search.ts:232-239 | once raised the flag stays up; otherwise it is raised when more than `timeLimit` has elapsed |
| AiSearch.Search.CountNode | services/ai/Search.ts:101-104 | the node count goes up by one and the clock is read on every 2048th node only |
| AiSearch.Search.Search | services/ai/Search.ts:16-40 | board restored; the move is the root result of the last depth that finished unstopped (none iff no legal move, else a move whose value is the negamax value), none if no depth finished; the loop ends before `maxDepth` only when stopped or when that depth's score passes MATE_SCORE - 100 |
| AiSearch.Search.AlphaBetaRoot | services/ai/Search.ts:42-98 | board restored; a returned move is legal with the negamax score; no move (score -INFINITY) iff none is legal |
| AiSearch.Search.RootLoop | services/ai/Search.ts:57-95 | the root move loop restores the board, keeps only legal moves as best, and while not stopped ends at the best negamax child over the ordered moves |
| AiSearch.Search.RootMove | services/ai/Search.ts:58-94 | one root move tried and undone: an illegal move changes nothing, a legal one folds its negamax value into the best so far |
| AiSearch.Search.TryMove | services/ai/Search.ts:60-82 | make, legality test, reply search in the mirrored window, unmake: the board is restored |
| AiSearch.Search.AlphaBeta | services/ai/Search.ts:100-161 | board restored; 0 once stopped, otherwise exactly the fail-hard value |
| AiSearch.Search.SearchMoves | services/ai/Search.ts:124-160 | the move loop with beta cutoff, and the mate or stalemate ending |
| AiSearch.Search.Quiescence | services/ai/Search.ts:163-230 | board restored; 0 once stopped, otherwise the quiescence value clamped to the window |
| AiSearch.Search.SearchCaptures | services/ai/Search.ts:206-229 | the capture loop after stand-pat gives the clamped quiescence value |
| AiSearch.Search.TryCapture | services/ai/Search.ts:207-217 | one capture is tried and undone; the recursion descends in the piece count |
| DifficultyControl.GetAiParams | services/ai/DifficultyController.ts:13-85 | depth adjustment in {0,1}, randomness in {0,0.2}, error probability in {0,0.01,0.05,0.20} |
| DifficultyControl.NoLeagueKeepsTier | services/ai/DifficultyController.ts:24-48 | without a league context the tier is the base tier and the error probability 0 |
| DifficultyControl.LeagueTierMonotone | services/ai/DifficultyController.ts:34-46 | a stronger league opponent never gets a lower tier or a higher error probability |
| DifficultyControl.FairnessRule | services/ai/DifficultyController.ts:70-82 | inside ±800 nothing changes; below it only randomness (0.2); above it depth +1 with no randomness or errors; tier never changes |
| DifficultyControl.AdjustEngineRequest | services/ai/DifficultyController.ts:88-106 | depth clamped to [2,8], time limit the tier's |
| DifficultyControl.AdjustMonotone | services/ai/DifficultyController.ts:100-103 | a larger adjustment never gives a shallower search |
| DifficultyControl.RequestForGame | services/ai/DifficultyController.ts:88-106 | for the parameters `getAiParams` yields, the depth is the tier's, plus one exactly above +800 |
| DifficultyControl.BalanceDepth | services/ai/DifficultyController.ts:70-82 | the fairness rule adds one ply exactly above the margin and keeps the tier |
| Engine.EngineSettings | services/ai/Engine.ts:12-28 | depth in [2,6] and time limit in [500,3000] |
| Engine.EngineAgreesWithController | services/ai/Engine.ts:15-28 | the engine's tier table is the controller's, with no depth adjustment |
| Engine.EngineSettingsMonotone | services/ai/Engine.ts:15-28 | a harder tier searches at least as deep and as long |
| Engine.CloneBoard | services/ai/Engine.ts:35 | a new board holding the same pieces in the same cells |
| Engine.LegalIsXiangqiLegal | services/ai/Search.ts:57-82 | a legal move is generated for the mover's piece and does not leave it in check |
| Engine.XiangqiEngine.constructor | services/ai/Engine.ts:7-9 | one searcher, set up for the Xiangqi rules |
| Engine.XiangqiEngine.GetBestMove | services/ai/Engine.ts:11-38 | the caller's board is unchanged; the search copies the tier's time limit; the move is the root result of the last finished depth up to the tier's, which falls short only when stopped or on a mate score |
| RoundRobin.SeatInjective | utils/tournamentLogic.ts:80 | after r rotations each position holds a different team |
| RoundRobin.SeatOfInverse | utils/tournamentLogic.ts:80 | the position of a team after r rotations is found in closed form |
| RoundRobin.SeatRotate | utils/tournamentLogic.ts:80 | `splice(1, 0, pop())` advances every position by one rotation |
| RoundRobin.SlotDistinct | utils/tournamentLogic.ts:64-66 | for an even count, a slot pairs two different teams |
| RoundRobin.SlotOfIndex | utils/tournamentLogic.ts:63-81 | every team plays in some slot of every round |
| RoundRobin.SlotOfIndexUnique | utils/tournamentLogic.ts:63-81 | and in only one |
| RoundRobin.PairUnique | utils/tournamentLogic.ts:63-81 | one pair never comes up in two slots |
| RoundRobin.PairExists | utils/tournamentLogic.ts:63-81 | every pair comes up in some slot |
| Sorting.StableSort | utils/tournamentLogic.ts:276 | the sort permutes its input |
| Sorting.StableSortSorted | utils/tournamentLogic.ts:276 | the result is ordered by the comparator |
| Sorting.StableSortIdentity | utils/tournamentLogic.ts:84 | an already ordered sequence comes out unchanged |
| Sorting.StableSortStable | utils/tournamentLogic.ts:135-138 | stability: for every key, the elements with that key come out in their input order, so ties in points keep the listed order |
| Sorting.InsertWithKey | utils/tournamentLogic.ts:276 | inserting into an ordered sequence places the element after every element with its key |
| Tournament.StrengthRange | utils/tournamentLogic.ts:35-39 | strength in 1..10: weak 1-4, average 5-7, strong 8-10 by the first draw |
| Tournament.AiIdsDistinct | utils/tournamentLogic.ts:23-42 | `ai_i` ids differ from each other and from "player" |
| Tournament.CreateTeams | utils/tournamentLogic.ts:20-50 | the player's team, then `count - 1` computer teams built from the draws |
| Tournament.CreatedTeams | utils/tournamentLogic.ts:20-50 | created teams have distinct ids; every computer team has strength 1..10 |
| Tournament.FindTeam | utils/tournamentLogic.ts:207 | a found team has the id and is in the list; none found means no team has it |
| Tournament.PushRound | utils/tournamentLogic.ts:64-78 | the inner loop appends one fixture per slot of the round |
| Tournament.GenerateLeagueSchedule | utils/tournamentLogic.ts:54-85 | the loop with rotation and final sort yields the league schedule |
| Tournament.LeagueShape | utils/tournamentLogic.ts:54-85 | n-1 rounds of ceil(n/2) matches in round order, rounds 1..n-1, unplayed, null scores; none for fewer than two teams |
| Tournament.LeagueInPushOrder | utils/tournamentLogic.ts:84 | the final sort by round leaves the pushed order |
| Tournament.LeagueNoSelfMatch | utils/tournamentLogic.ts:63-81 | for an even number of distinct teams nobody plays itself |
| Tournament.LeaguePairsMeetOnce | utils/tournamentLogic.ts:63-81 | for an even number of distinct teams every two teams meet in exactly one match |
| Tournament.FixturesSeat | utils/tournamentLogic.ts:63-81 | a league match of round r that a team plays sits at a slot of that round where the team is one of the two seats |
| Tournament.LeagueOncePerRound | utils/tournamentLogic.ts:63-81 | for an even number of distinct teams, each team plays exactly once per round |
| Tournament.LeagueStage | utils/tournamentLogic.ts:76 | every league match is staged "Vòng n" for its round n |
| Tournament.LeagueOddSelfMatch | utils/tournamentLogic.ts:59-66 | for an odd count, every round holds a match of a team against itself |
| Cup.PushRow | utils/tournamentLogic.ts:102-113 | the inner loop pairs team i with every later team |
| Cup.PushGroup | utils/tournamentLogic.ts:101-114 | both loops push the group's pairs |
| Cup.AddGroup | utils/tournamentLogic.ts:96-115 | one group adds its ids and its matches |
| Cup.GenerateCupGroups | utils/tournamentLogic.ts:89-118 | `generateCupGroups` on a given shuffle yields the groups and matches functions |
| Cup.GroupMatchesMembers | utils/tournamentLogic.ts:101-114 | a group's matches are exactly its pairs i < j |
| Cup.GroupOfFourLength | utils/tournamentLogic.ts:101-114 | a group of four plays six matches |
| Cup.GroupOfFull | utils/tournamentLogic.ts:97 | group idx is the four teams at positions 4 idx .. 4 idx + 3 |
| Cup.CupMatchesMembers | utils/tournamentLogic.ts:96-115 | the cup schedule is exactly the pairs of every group |
| Cup.CupSchedule | utils/tournamentLogic.ts:89-118 | with 32 teams: 48 matches of round 1, unplayed, staged "Bảng X" |
| Cup.CupGroupsAt | utils/tournamentLogic.ts:98 | the record maps each group name to its group's ids |
| Cup.CupGroupsKeys | utils/tournamentLogic.ts:98 | the record has no other key |
| Cup.CupGroupsCover | utils/tournamentLogic.ts:89-118 | with 32 teams every team is in some group |
| Knockout.MaxRoundUpper | utils/tournamentLogic.ts:121-122 | no played match is later than `maxRound` |
| Knockout.MaxRoundAttained | utils/tournamentLogic.ts:121-122 | some played match is of round `maxRound` |
| Knockout.MaxRoundDefault | utils/tournamentLogic.ts:122 | `maxRound` is 1 when nothing has been played |
| Knockout.RankingOrder | utils/tournamentLogic.ts:134-138 | the group table ranks by points then won-lost: nobody ahead of the first, only the first ahead of the second |
| Knockout.FoundMembers | utils/tournamentLogic.ts:134 | the ranked teams are those of the group's ids found in `teams` |
| Knockout.QualifiedTop | utils/tournamentLogic.ts:133-140 | a group's qualifiers are the top two of its table; it throws with fewer than two found |
| Knockout.QualifiedAll | utils/tournamentLogic.ts:133-140 | it throws iff some group throws, else it lists every group's qualifiers |
| Knockout.RoundOf16Shape | utils/tournamentLogic.ts:143-152 | eight round-2 "Vòng 1/8" matches: A1-B2, C1-D2, E1-F2, G1-H2, B1-A2, D1-C2, F1-E2, H1-G2 |
| Knockout.KnockoutAfterGroupsThrows | utils/tournamentLogic.ts:128-140 | after the groups it throws iff the groups are missing or a group has fewer than two found teams |
| Knockout.KnockoutAfterGroups | utils/tournamentLogic.ts:128-154 | otherwise it is the round of 16 on the qualifiers |
| Knockout.NextRoundShape | utils/tournamentLogic.ts:157-187 | a next round pairs winners of consecutive matches; it throws iff the round is too short |
| Knockout.FinalRoundShape | utils/tournamentLogic.ts:190-199 | the final pairs the winners of the two semi-finals |
| Knockout.KnockoutNextRound | utils/tournamentLogic.ts:157-199 | after round 2, 3 or 4: 4, 2 or 1 matches of the next round between winners |
| Knockout.KnockoutIdle | utils/tournamentLogic.ts:201 | any other state yields no matches |
| Knockout.OfRoundMembers | utils/tournamentLogic.ts:158 | the filter keeps exactly the matches of that round |
| Simulation.SimulateMatch | utils/tournamentLogic.ts:206-234 | the best-of-3 loop with break and the tie-break yield the simulated match |
| Simulation.SeriesStops | utils/tournamentLogic.ts:217 | once a side has two wins the series no longer changes |
| Simulation.SeriesBounds | utils/tournamentLogic.ts:216-221 | no side passes two wins, both never reach two, every win took a game |
| Simulation.SeriesMonotone | utils/tournamentLogic.ts:218-220 | a larger strength difference never gives side A fewer wins or side B more |
| Simulation.SimulatedOutcome | utils/tournamentLogic.ts:206-234 | throws iff a team is missing; else scores ≤ 2 each, set with `isPlayed`, other fields unchanged, never level from round 2 |
| Simulation.KnockoutDecided | utils/tournamentLogic.ts:224-226 | a simulated knockout match has a winner, the side with more wins |
| Standings.FindIndex | utils/tournamentLogic.ts:245-246 | the first team with the id, and none iff no team has it |
| Standings.RecordMatch | utils/tournamentLogic.ts:244-273 | one pass of the `forEach` body applies the in-place updates |
| Standings.UpdateStandings | utils/tournamentLogic.ts:236-277 | `updateStandings` yields the rebuilt, sorted table |
| Standings.GainBalanced | utils/tournamentLogic.ts:257-270 | a counted match gives each side a consistent one-game record |
| Standings.CountedAt | utils/tournamentLogic.ts:251-270 | each side gains its share, other teams and fields stay |
| Standings.RecordEffect | utils/tournamentLogic.ts:243-273 | a counted match adds its gain to each side's team and changes nothing else; any other match changes nothing |
| Standings.RecordKeeps | utils/tournamentLogic.ts:243-273 | a match changes records only |
| Standings.TallyKeeps | utils/tournamentLogic.ts:243-274 | the matches leave every team's id, name, flag and strength alone |
| Standings.RecordBalanced | utils/tournamentLogic.ts:250-270 | a match keeps every record consistent (played = won + drawn + lost, points = 3 won + drawn) |
| Standings.TallyBalanced | utils/tournamentLogic.ts:243-274 | the rebuilt records are consistent, whatever the matches |
| Standings.ResetBalanced | utils/tournamentLogic.ts:238-241 | the reset records are zero and consistent |
| Standings.SortIds | utils/tournamentLogic.ts:276 | sorting by points keeps the ids |
| Standings.TalliedIds | utils/tournamentLogic.ts:238-274 | the rebuilt table has the input's ids position by position |
| Standings.StandingsOrder | utils/tournamentLogic.ts:236-277 | the result holds the rebuilt records, has the input's ids, ordered by non-increasing points |
| Standings.StandingsBalanced | utils/tournamentLogic.ts:236-277 | every record in the result is consistent |
| Standings.StandingsIdle | utils/tournamentLogic.ts:243-250 | without a counted match the table is all zero in input order |
| Standings.NoMark | utils/tournamentLogic.ts:250 | a stage name without a capital B is not a group stage |
| Standings.LeagueStageIdle | utils/tournamentLogic.ts:250 | "Vòng n" is not a group stage |
| Standings.LeagueStandingsIdle | utils/tournamentLogic.ts:236-277 | league standings stay at zero and the first team given heads them |

## Left out

- **Outside the engine core:**
  - React state, rendering, audio, storage, Web Workers and the network client are not part of this model.
  - `console.log` output is left out.
  - The unused detail counters of `evaluateBoard` are left out.
- **The wall clock.** `Date.now()` is an injected function `clock` read at a counter `ticks`; no timing is modelled.
- **Random draws are inputs:**
  - `createTeams` takes pairs of draws;
  - `simulateMatch` takes three game draws and a tie-break draw;
  - `generateCupGroups` takes a shuffled reordering of the teams. The distribution of the shuffle is not modelled.
- **Numbers:**
  - `randomness` and `errorProb` are exact reals, not floating point.
  - `simulateMatch` compares exact reals.
  - `nodesVisited & 2047` is modelled as `% 2048` of a non-negative count.
- **Piece records are values, not shared objects.** `makeMove` stores an updated copy of the mover, and object aliasing between cells is not modelled. The search's board and the caller's board are different arrays, as after `getBestMove`'s clone.
- **Types:** `GameState` fields other than the board are not modelled. `Difficulty` and the tournament enums are closed datatypes, so the default branches on unknown strings do not arise.
- **Errors.** A dereference of a missing value (`!`) is the `Throws` result; the exception's message is not modelled.
- MoveGen.SortMoves: states order and permutation but not stability of equal keys. The search results are proved independent of the order of equal moves up to the choice among equally good moves.
- AiSearch.SortedCopy: states order and permutation but not stability.
- AiSearch.Search.Search: among equally good root moves, which one is kept (the first in the capture-first order) is not stated; `completed` is a ghost result that only names the depth.
- Engine.XiangqiEngine.GetBestMove: the search result is related to the negamax value, not to the literal move list order among equally good moves.
- Fen.FenDetermines: the text encodes kind and colour only; ids and recorded positions are not recoverable, as in the source.
- Tournament.LeaguePairsMeetOnce: proved for an even number of distinct teams; for odd counts the source schedules self-matches (Tournament.LeagueOddSelfMatch).
- Cup.CupSchedule: stated for 32 teams, the count the game uses; other counts are modelled but only the membership lemmas hold for them.
